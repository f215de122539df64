/**
 The interval scheduler of `task-scheduler.ts` as a machine whose steps are the
 stretches of code that run without an `await` in between.
 */
module TaskScheduler {
  import opened Prelude

  type TaskId = string

  /** `timer` is the handle kept for `clearTimeout`. */
  datatype TaskRecord = TaskRecord(intervalMs: int, running: bool, timer: Option<nat>)

  /** A run handed to `enqueue`; one started by a timer plans its task again when it resolves. */
  datatype QueuedRun = QueuedRun(id: nat, task: TaskId, byTimer: bool)

  /** `finished` once the operation is over and only its `finally` callback is still to come. */
  datatype Execution = Execution(run: QueuedRun, finished: bool)

  datatype Timer = Timer(id: nat, task: TaskId)

  datatype State = State(
    concurrency: nat,
    order: seq<TaskId>,              // the tasks in registration order
    tasks: map<TaskId, TaskRecord>,
    pending: seq<QueuedRun>,
    executions: seq<Execution>,
    active: int,
    started: bool,
    aborted: bool,
    timers: seq<Timer>,              // timers that will still fire
    replans: seq<TaskId>,            // resolved timer-driven runs whose task is about to be planned again
    resolved: seq<nat>,              // runs whose promise has been resolved, in order
    launched: seq<nat>,              // runs whose operation has been started, in order
    nextRun: nat,
    nextTimer: nat
  )

  function Initial(concurrency: nat): State {
    State(concurrency, [], map[], [], [], 0, false, false, [], [], [], [], 0, 0)
  }

  function WithRunning(tasks: map<TaskId, TaskRecord>, task: TaskId, running: bool): map<TaskId, TaskRecord> {
    if task in tasks then tasks[task := tasks[task].(running := running)] else tasks
  }

  function IsRunning(s: State, task: TaskId): bool {
    task in s.tasks && s.tasks[task].running
  }

  /** `plan(record, delay)`; delays do not matter here. */
  function Plan(s: State, task: TaskId): State {
    if !s.started || task !in s.tasks then s
    else s.(timers := s.timers + [Timer(s.nextTimer, task)],
            tasks := s.tasks[task := s.tasks[task].(timer := Some(s.nextTimer))],
            nextTimer := s.nextTimer + 1)
  }

  function PlanAll(s: State, ids: seq<TaskId>): State {
    if ids == [] then s else Plan(PlanAll(s, ids[..|ids| - 1]), ids[|ids| - 1])
  }

  function Execute(s: State, run: QueuedRun): State {
    s.(active := s.active + 1,
       executions := s.executions + [Execution(run, false)],
       tasks := WithRunning(s.tasks, run.task, true),
       launched := s.launched + [run.id])
  }

  function Resolve(s: State, run: QueuedRun): State {
    s.(resolved := s.resolved + [run.id],
       replans := s.replans + (if run.byTimer then [run.task] else []))
  }

  function ResolveAll(s: State, runs: seq<QueuedRun>): State {
    if runs == [] then s else Resolve(ResolveAll(s, runs[..|runs| - 1]), runs[|runs| - 1])
  }

  function Drain(s: State): State
    decreases |s.pending|
  {
    if s.active >= s.concurrency || s.pending == [] then s
    else
      var run, rest := s.pending[0], s.(pending := s.pending[1..]);
      Drain(if s.aborted then Resolve(rest, run) else Execute(rest, run))
  }

  function Enqueue(s: State, task: TaskId, byTimer: bool): State {
    if IsRunning(s, task) || s.aborted then
      if byTimer then s.(replans := s.replans + [task]) else s
    else
      var run, next := QueuedRun(s.nextRun, task, byTimer), s.(nextRun := s.nextRun + 1);
      if s.active < s.concurrency then Execute(next, run) else next.(pending := s.pending + [run])
  }

  /** Removes the element at an index. */
  function Without<T>(s: seq<T>, k: nat): (r: seq<T>)
    requires k < |s|
  {
    s[..k] + s[k + 1..]
  }

  datatype Event =
    | Register(id: TaskId, intervalMs: int)
    | Start
    | Stop
    | RunNow(id: TaskId)
    | Fire(k: nat)      // the k-th outstanding timer fires
    | Finish(k: nat)    // the k-th execution's operation returns or throws
    | Settle(k: nat)    // its `finally` callback runs
    | Replan(k: nat)    // the k-th pending re-plan runs

  /** `stop` up to the loop that resolves the waiting runs. */
  function Stopped(s: State): State {
    var cleared := set id | id in s.tasks && s.tasks[id].timer.Some? :: s.tasks[id].timer.value;
    s.(started := false, aborted := true,
       timers := Filter(s.timers, (t: Timer) => t.id !in cleared),
       tasks := map id | id in s.tasks :: s.tasks[id].(timer := None),
       pending := [])
  }

  function StopState(s: State): State {
    ResolveAll(Stopped(s), s.pending)
  }

  /** The step an event makes; an event that cannot happen changes nothing. */
  function Next(s: State, e: Event): State {
    match e
    case Register(id, intervalMs) =>
      if intervalMs < 10 || id in s.tasks then s
      else Plan(s.(order := s.order + [id], tasks := s.tasks[id := TaskRecord(intervalMs, false, None)]), id)
    case Start => if s.started then s else PlanAll(s.(started := true, aborted := false), s.order)
    case Stop => if s.started then StopState(s) else s
    case RunNow(id) => if id in s.tasks && s.started then Enqueue(s, id, false) else s
    case Fire(k) =>
      if k < |s.timers| then Enqueue(s.(timers := Without(s.timers, k)), s.timers[k].task, true) else s
    case Finish(k) =>
      if k < |s.executions| && !s.executions[k].finished then
        s.(executions := s.executions[k := s.executions[k].(finished := true)],
           tasks := WithRunning(s.tasks, s.executions[k].run.task, false))
      else s
    case Settle(k) =>
      if k < |s.executions| && s.executions[k].finished then
        Drain(Resolve(s.(active := s.active - 1, executions := Without(s.executions, k)), s.executions[k].run))
      else s
    case Replan(k) =>
      if k < |s.replans| then Plan(s.(replans := Without(s.replans, k)), s.replans[k]) else s
  }

  /** The state after any interleaving of events. */
  function After(s: State, events: seq<Event>): State {
    if events == [] then s else Next(After(s, events[..|events| - 1]), events[|events| - 1])
  }

  lemma DrainStep(s: State)
    requires s.active < s.concurrency && s.pending != []
    ensures var run, rest := s.pending[0], s.(pending := s.pending[1..]);
      Drain(s) == Drain(if s.aborted then Resolve(rest, run) else Execute(rest, run))
  {
  }

  // Whatever is planned, waiting or executing belongs to a registered task.

  ghost predicate Registered(s: State) {
    && (forall id :: id in s.order ==> id in s.tasks)
    && (forall r :: r in s.pending ==> r.task in s.tasks)
    && (forall e :: e in s.executions ==> e.run.task in s.tasks)
    && (forall t :: t in s.timers ==> t.task in s.tasks)
    && (forall id :: id in s.replans ==> id in s.tasks)
  }

  lemma {:induction false} PlanAllRegistered(s: State, ids: seq<TaskId>)
    requires Registered(s)
    ensures Registered(PlanAll(s, ids))
  {
    if ids == [] {
    } else {
      PlanAllRegistered(s, ids[..|ids| - 1]);
    }
  }

  lemma {:induction false} ResolveAllRegistered(s: State, runs: seq<QueuedRun>)
    requires Registered(s) && forall r :: r in runs ==> r.task in s.tasks
    ensures Registered(ResolveAll(s, runs)) && ResolveAll(s, runs).tasks == s.tasks
  {
    if runs == [] {
    } else {
      ResolveAllRegistered(s, runs[..|runs| - 1]);
    }
  }

  lemma {:induction false} DrainRegistered(s: State)
    requires Registered(s)
    ensures Registered(Drain(s))
    decreases |s.pending|
  {
    if s.active >= s.concurrency || s.pending == [] {
    } else {
      var run, rest := s.pending[0], s.(pending := s.pending[1..]);
      assert run in s.pending;
      DrainRegistered(if s.aborted then Resolve(rest, run) else Execute(rest, run));
    }
  }

  lemma EnqueueRegistered(s: State, task: TaskId, byTimer: bool)
    requires Registered(s) && task in s.tasks
    ensures Registered(Enqueue(s, task, byTimer))
  {
  }

  lemma RegisterRegistered(s: State, id: TaskId, intervalMs: int)
    requires Registered(s)
    ensures Registered(Next(s, Register(id, intervalMs)))
  {
  }

  lemma StopRegistered(s: State)
    requires Registered(s)
    ensures Registered(StopState(s))
  {
    ResolveAllRegistered(Stopped(s), s.pending);
  }

  lemma FinishRegistered(s: State, k: nat)
    requires Registered(s) && k < |s.executions|
    ensures Registered(Next(s, Finish(k)))
  {
    assert s.executions[k] in s.executions;
  }

  lemma SettleRegistered(s: State, k: nat)
    requires Registered(s) && k < |s.executions|
    ensures Registered(Next(s, Settle(k)))
  {
    assert s.executions[k] in s.executions;
    DrainRegistered(Resolve(s.(active := s.active - 1, executions := Without(s.executions, k)), s.executions[k].run));
  }

  lemma NextRegistered(s: State, e: Event)
    requires Registered(s)
    ensures Registered(Next(s, e))
  {
    match e {
      case Start => PlanAllRegistered(s.(started := true, aborted := false), s.order);
      case Stop => StopRegistered(s);
      case Register(id, intervalMs) => RegisterRegistered(s, id, intervalMs);
      case RunNow(id) => if id in s.tasks { EnqueueRegistered(s, id, false); }
      case Fire(k) =>
        if k < |s.timers| {
          assert s.timers[k] in s.timers;
          EnqueueRegistered(s.(timers := Without(s.timers, k)), s.timers[k].task, true);
        }
      case Finish(k) => if k < |s.executions| { FinishRegistered(s, k); }
      case Settle(k) => if k < |s.executions| { SettleRegistered(s, k); }
      case _ =>
    }
  }

  // What single steps do, in terms of the fields.

  /** Every registered task gets a timer of its own, in registration order. */
  ghost predicate PlansEach(s: State, t: State) {
    && t.started && !t.aborted && t.order == s.order && t.nextTimer == s.nextTimer + |s.order|
    && t.timers == s.timers + seq(|s.order|, i requires 0 <= i < |s.order| => Timer(s.nextTimer + i, s.order[i]))
  }

  lemma {:induction false} PlanAllTimers(s: State, ids: seq<TaskId>)
    requires s.started && forall id :: id in ids ==> id in s.tasks
    ensures var t := PlanAll(s, ids);
      && t == s.(timers := t.timers, tasks := t.tasks, nextTimer := s.nextTimer + |ids|) && t.tasks.Keys == s.tasks.Keys
      && t.timers == s.timers + seq(|ids|, i requires 0 <= i < |ids| => Timer(s.nextTimer + i, ids[i]))
  {
    if ids == [] {
      assert s.timers + [] == s.timers;
    } else {
      var front, last := ids[..|ids| - 1], ids[|ids| - 1];
      PlanAllTimers(s, front);
      NewTimers(s.nextTimer, front, last);
      assert ids == front + [last];
    }
  }

  lemma NewTimers(from: nat, front: seq<TaskId>, last: TaskId)
    ensures var ids := front + [last];
      seq(|ids|, i requires 0 <= i < |ids| => Timer(from + i, ids[i]))
      == seq(|front|, i requires 0 <= i < |front| => Timer(from + i, front[i])) + [Timer(from + |front|, last)]
  {
  }

  /** `start` plans every registered task, also after a `stop`. */
  lemma {:induction false} StartPlansEach(s: State)
    requires Registered(s) && !s.started
    ensures PlansEach(s, Next(s, Start))
  {
    PlanAllTimers(s.(started := true, aborted := false), s.order);
  }

  /** Nothing waits any more, whoever waited has been answered, and only timers that no record keeps are outstanding. */
  ghost predicate StopsAll(s: State, t: State) {
    && !t.started && t.aborted && t.pending == [] && t.executions == s.executions && t.active == s.active
    && t.tasks.Keys == s.tasks.Keys && (forall id :: id in t.tasks ==> t.tasks[id] == s.tasks[id].(timer := None))
    && |t.resolved| == |s.resolved| + |s.pending| && (forall i :: 0 <= i < |s.resolved| ==> t.resolved[i] == s.resolved[i])
    && (forall i :: 0 <= i < |s.pending| ==> t.resolved[|s.resolved| + i] == s.pending[i].id)
    && forall timer :: timer in t.timers <==> timer in s.timers && !Kept(s, timer)
  }

  /** Some record keeps the handle of the timer. */
  predicate Kept(s: State, timer: Timer) {
    exists id :: id in s.tasks && s.tasks[id].timer == Some(timer.id)
  }

  lemma {:induction false} ResolveAllAnswers(s: State, runs: seq<QueuedRun>)
    ensures var t := ResolveAll(s, runs);
      && t == s.(resolved := t.resolved, replans := t.replans) && |t.resolved| == |s.resolved| + |runs|
      && (forall i :: 0 <= i < |s.resolved| ==> t.resolved[i] == s.resolved[i])
      && forall i :: 0 <= i < |runs| ==> t.resolved[|s.resolved| + i] == runs[i].id
  {
    if runs == [] {
    } else {
      ResolveAllAnswers(s, runs[..|runs| - 1]);
    }
  }

  lemma {:induction false} StopStopsAll(s: State)
    requires s.started
    ensures StopsAll(s, Next(s, Stop))
  {
    ResolveAllAnswers(Stopped(s), s.pending);
    forall timer
      ensures timer in Stopped(s).timers <==> timer in s.timers && !Kept(s, timer)
    {
    }
  }

  /** A run is asked for: it is refused, launched or put at the end of the queue. */
  ghost predicate Asked(s: State, task: TaskId, byTimer: bool, t: State) {
    var run := QueuedRun(s.nextRun, task, byTimer);
    if IsRunning(s, task) || s.aborted then
      t.executions == s.executions && t.pending == s.pending && t.replans == s.replans + (if byTimer then [task] else [])
    else if s.active < s.concurrency then
      t.executions == s.executions + [Execution(run, false)] && t.pending == s.pending && IsRunning(t, task) && t.replans == s.replans
    else t.executions == s.executions && t.pending == s.pending + [run] && t.replans == s.replans
  }

  lemma EnqueueAsks(s: State, task: TaskId, byTimer: bool)
    requires task in s.tasks
    ensures Asked(s, task, byTimer, Enqueue(s, task, byTimer))
  {
    assert s.replans + [] == s.replans;
  }

  /** The fields above the line are the source's; those below stand for timers and promises. */
  class TaskScheduler {
    const concurrency: nat
    var order: seq<TaskId>
    var tasks: map<TaskId, TaskRecord>
    var pending: seq<QueuedRun>
    var executions: seq<Execution>
    var active: int
    var started: bool
    var aborted: bool
    // ----
    var timers: seq<Timer>
    var replans: seq<TaskId>
    var resolved: seq<nat>
    var launched: seq<nat>
    var nextRun: nat
    var nextTimer: nat

    constructor (concurrency: nat)
      requires concurrency >= 1
      ensures Valid() && View() == Initial(concurrency)
      ensures !started && !aborted && order == [] && tasks == map[] && pending == [] && executions == [] && active == 0
      ensures timers == [] && replans == [] && resolved == [] && launched == []
    {
      this.concurrency := concurrency;
      order, tasks, pending, executions := [], map[], [], [];
      active, started, aborted := 0, false, false;
      timers, replans, resolved, launched, nextRun, nextTimer := [], [], [], [], 0, 0;
    }

    function View(): State
      reads this
    {
      State(concurrency, order, tasks, pending, executions, active, started, aborted,
            timers, replans, resolved, launched, nextRun, nextTimer)
    }

    ghost predicate Valid()
      reads this
    {
      Registered(View())
    }

    /** `assertSafeIdentifier` is left to the caller. */
    method RegisterTask(id: TaskId, intervalMs: int) returns (r: Result<()>)
      requires Valid()
      modifies this
      ensures Valid() && View() == Next(old(View()), Register(id, intervalMs))
      ensures r == if intervalMs < 10 then Err(InvalidArgument) else if id in old(tasks) then Err(Duplicate) else Ok(())
      ensures r.Err? ==> View() == old(View())
      ensures r.Ok? ==> order == old(order) + [id] && pending == old(pending) && executions == old(executions)
      ensures r.Ok? ==> tasks == old(tasks)[id := TaskRecord(intervalMs, false, if started then Some(old(nextTimer)) else None)]
      ensures r.Ok? ==> timers == if started then old(timers) + [Timer(old(nextTimer), id)] else old(timers)
    {
      NextRegistered(View(), Register(id, intervalMs));
      if intervalMs < 10 { return Err(InvalidArgument); }
      if id in tasks { return Err(Duplicate); }
      order := order + [id];
      tasks := tasks[id := TaskRecord(intervalMs, false, None)];
      PlanTask(id);
      return Ok(());
    }

    method PlanTask(id: TaskId)
      requires id in tasks
      modifies this`timers, this`tasks, this`nextTimer
      ensures View() == Plan(old(View()), id)
    {
      if !started { return; }
      timers := timers + [Timer(nextTimer, id)];
      tasks := tasks[id := tasks[id].(timer := Some(nextTimer))];
      nextTimer := nextTimer + 1;
    }

    method StartAll()
      requires Valid()
      modifies this
      ensures Valid() && View() == Next(old(View()), Start)
      ensures if old(started) then View() == old(View()) else PlansEach(old(View()), View())
    {
      NextRegistered(View(), Start);
      if !started { StartPlansEach(View()); }
      if started { return; }
      aborted := false;
      started := true;
      ghost var begun := View();
      for i := 0 to |order|
        invariant order == begun.order && forall id :: id in order ==> id in tasks
        invariant View() == PlanAll(begun, order[..i])
      {
        assert order[..i + 1][..i] == order[..i];
        PlanTask(order[i]);
      }
      assert order[..|order|] == order;
    }

    method StopAll()
      requires Valid()
      modifies this
      ensures Valid() && View() == Next(old(View()), Stop)
      ensures if old(started) then StopsAll(old(View()), View()) else View() == old(View())
    {
      NextRegistered(View(), Stop);
      if started { StopStopsAll(View()); }
      if !started { return; }
      var waiting := pending;
      ClearTimers();
      ResolveWaiting(waiting);
    }

    method ClearTimers()
      modifies this
      ensures View() == Stopped(old(View()))
    {
      var cleared := set id | id in tasks && tasks[id].timer.Some? :: tasks[id].timer.value;
      started := false;
      aborted := true;
      timers := Filter(timers, (t: Timer) => t.id !in cleared);
      tasks := map id | id in tasks :: tasks[id].(timer := None);
      pending := [];
    }

    method ResolveWaiting(waiting: seq<QueuedRun>)
      modifies this`resolved, this`replans
      ensures View() == ResolveAll(old(View()), waiting)
    {
      for i := 0 to |waiting|
        invariant View() == ResolveAll(old(View()), waiting[..i])
      {
        assert waiting[..i + 1][..i] == waiting[..i];
        ResolveRun(waiting[i]);
      }
      assert waiting[..|waiting|] == waiting;
    }

    method ResolveRun(run: QueuedRun)
      modifies this`resolved, this`replans
      ensures View() == Resolve(old(View()), run)
    {
      resolved := resolved + [run.id];
      if run.byTimer { replans := replans + [run.task]; } else { assert replans + [] == replans; }
    }

    method ExecuteRun(run: QueuedRun)
      modifies this`active, this`executions, this`tasks, this`launched
      ensures View() == Execute(old(View()), run)
    {
      active := active + 1;
      executions := executions + [Execution(run, false)];
      launched := launched + [run.id];
      if run.task in tasks { tasks := tasks[run.task := tasks[run.task].(running := true)]; }
    }

    method EnqueueTask(task: TaskId, byTimer: bool)
      requires task in tasks
      modifies this
      ensures View() == Enqueue(old(View()), task, byTimer) && Asked(old(View()), task, byTimer, View())
    {
      EnqueueAsks(View(), task, byTimer);
      if tasks[task].running || aborted {
        if byTimer { replans := replans + [task]; }
        return;
      }
      var run := QueuedRun(nextRun, task, byTimer);
      nextRun := nextRun + 1;
      if active < concurrency {
        ExecuteRun(run);
      } else {
        pending := pending + [run];
      }
    }

    method RunTaskNow(id: TaskId) returns (r: Result<()>)
      requires Valid()
      modifies this
      ensures Valid() && View() == Next(old(View()), RunNow(id))
      ensures r == if id !in old(tasks) then Err(NotFound) else if !old(started) then Err(InvalidState) else Ok(())
    {
      NextRegistered(View(), RunNow(id));
      if id !in tasks { return Err(NotFound); }
      if !started { return Err(InvalidState); }
      EnqueueTask(id, false);
      return Ok(());
    }

    /** The callback of a task's timer. */
    method OnTimer(k: nat)
      requires Valid() && k < |timers|
      modifies this
      ensures Valid() && View() == Next(old(View()), Fire(k))
      ensures timers == old(timers)[..k] + old(timers)[k + 1..] && Asked(old(View()), old(timers)[k].task, true, View())
    {
      NextRegistered(View(), Fire(k));
      assert timers[k] in timers;
      var task := timers[k].task;
      timers := Without(timers, k);
      EnqueueTask(task, true);
    }

    /** The `finally` inside a run's operation. */
    method OnFinished(k: nat)
      requires Valid() && k < |executions| && !executions[k].finished
      modifies this`executions, this`tasks
      ensures Valid() && View() == Next(old(View()), Finish(k))
      ensures executions == old(executions)[k := Execution(old(executions)[k].run, true)]
      ensures var task := old(executions)[k].run.task;
        task in old(tasks) && tasks == old(tasks)[task := old(tasks)[task].(running := false)]
    {
      NextRegistered(View(), Finish(k));
      assert executions[k] in executions;
      var task := executions[k].run.task;
      tasks := tasks[task := tasks[task].(running := false)];
      executions := executions[k := executions[k].(finished := true)];
    }

    /** The callback that plans a task again after its timer-driven run. */
    method OnReplan(k: nat)
      requires Valid() && k < |replans|
      modifies this
      ensures Valid() && View() == Next(old(View()), Replan(k))
      ensures replans == old(replans)[..k] + old(replans)[k + 1..]
      ensures timers == if started then old(timers) + [Timer(old(nextTimer), old(replans)[k])] else old(timers)
    {
      NextRegistered(View(), Replan(k));
      var task := replans[k];
      replans := Without(replans, k);
      PlanTask(task);
    }

    /** The callback of the `finally` in `execute`. */
    method OnSettled(k: nat)
      requires Valid() && k < |executions| && executions[k].finished
      modifies this
      ensures Valid() && View() == Next(old(View()), Settle(k))
      ensures old(executions)[k].run.id in resolved
    {
      NextRegistered(View(), Settle(k));
      var run := executions[k].run;
      active := active - 1;
      executions := Without(executions, k);
      ResolveRun(run);
      assert run.id in resolved;
      DrainQueue();
    }

    /** Fills free slots from the head of the queue; only while the scheduler is stopped are waiting runs resolved instead. */
    method DrainQueue()
      modifies this
      ensures View() == Drain(old(View()))
      ensures active >= concurrency || pending == []
      ensures forall id :: id in old(resolved) ==> id in resolved
    {
      while active < concurrency && pending != []
        invariant Drain(View()) == Drain(old(View()))
        invariant forall id :: id in old(resolved) ==> id in resolved
        decreases |pending|
      {
        DrainStep(View());
        var run := pending[0];
        pending := pending[1..];
        if aborted { ResolveRun(run); } else { ExecuteRun(run); }
      }
    }
  }
}
