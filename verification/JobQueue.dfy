/** The life of jobs in `BrainTaskScheduler` (`brain-scheduler.ts`), step by step and in any interleaving. */
module JobQueue {
  import opened Prelude

  type Id = string

  datatype JobStatus = Queued | Running | Succeeded | Failed | Cancelled | Dead

  /** `lastFailure` is the time of the failure that put the job back in the queue; the source keeps it only in `runAt`. */
  datatype Job = Job(priority: int, runAt: int, attempts: nat, maxAttempts: nat, backoff: int, status: JobStatus, lastFailure: Option<int>)

  /**
   `entries` holds the current job of every entry ever queued, also of those a running handler alone still refers to.
   `started` lists the handler calls, `cleared` the ids that `clearCompleted` dropped.
   */
  datatype State = State(entries: map<Id, Job>, queue: seq<Id>, finished: map<Id, Job>, started: seq<Id>, cleared: set<Id>)

  datatype Options = Options(name: string, priority: int, delay: int, maxAttempts: int, backoff: int)

  datatype Event =
    | Enqueue(id: Id, options: Options, now: int)
    | Begin(id: Id)            // `runJob` up to calling the handler
    | Succeed(id: Id)          // the handler returns
    | Fail(id: Id, now: int)   // the handler throws
    | Cancel(id: Id)
    | ClearCompleted

  predicate Terminal(status: JobStatus) {
    status == Succeeded || status == Failed || status == Dead
  }

  predicate ValidOptions(options: Options) {
    !Blank(options.name) && options.maxAttempts >= 1 && options.delay >= 0
  }

  function NewJob(options: Options, now: int): Job
    requires ValidOptions(options)
  {
    Job(options.priority, now + options.delay, 0, options.maxAttempts, options.backoff, Queued, None)
  }

  function Power2(n: nat): nat {
    if n == 0 then 1 else 2 * Power2(n - 1)
  }

  function Begun(job: Job): Job {
    job.(status := Running, attempts := job.attempts + 1)
  }

  predicate Retries(job: Job) {
    job.attempts < job.maxAttempts
  }

  function Requeued(job: Job, now: int): Job
    requires job.attempts >= 1
  {
    job.(status := Queued, runAt := now + job.backoff * Power2(job.attempts - 1), lastFailure := Some(now))
  }

  function Exhausted(job: Job): Job {
    job.(status := if job.maxAttempts > 1 then Dead else Failed)
  }

  function Without(queue: seq<Id>, id: Id): seq<Id> {
    Filter(queue, (x: Id) => x != id)
  }

  /** `settle` */
  function Settled(s: State, id: Id, job: Job): State {
    s.(entries := s.entries[id := job], queue := Without(s.queue, id), finished := s.finished[id := job], cleared := s.cleared - {id})
  }

  /** Ids are unique; a handler finishes only while it runs. `Begin` and `Cancel` are possible at any time. */
  predicate CanHappen(s: State, e: Event) {
    match e
    case Enqueue(id, _, _) => id !in s.entries
    case Succeed(id) => id in s.entries && s.entries[id].status == Running
    case Fail(id, _) => id in s.entries && s.entries[id].status == Running && s.entries[id].attempts >= 1
    case _ => true
  }

  predicate CanBegin(s: State, id: Id) {
    id in s.queue && id in s.entries && s.entries[id].status == Queued
  }

  function Next(s: State, e: Event): State
    requires CanHappen(s, e)
  {
    match e
    case Enqueue(id, options, now) =>
      if ValidOptions(options) then s.(entries := s.entries[id := NewJob(options, now)], queue := s.queue + [id]) else s
    case Begin(id) =>
      if CanBegin(s, id) then s.(entries := s.entries[id := Begun(s.entries[id])], started := s.started + [id]) else s
    case Succeed(id) => Settled(s, id, s.entries[id].(status := Succeeded))
    case Fail(id, now) =>
      var job := s.entries[id];
      if Retries(job) then s.(entries := s.entries[id := Requeued(job, now)]) else Settled(s, id, Exhausted(job))
    case Cancel(id) =>
      if id in s.queue && id in s.entries
      then s.(queue := Without(s.queue, id), finished := s.finished[id := s.entries[id].(status := Cancelled)])
      else s
    case ClearCompleted => s.(finished := map[], cleared := s.cleared + s.finished.Keys)
  }

  function Calls(started: seq<Id>, id: Id): nat {
    if started == [] then 0
    else Calls(started[..|started| - 1], id) + if started[|started| - 1] == id then 1 else 0
  }

  /** One job's figures: handler calls, the bound on them, and the backoff it waits out. */
  predicate Sane(s: State, id: Id)
    requires id in s.entries
  {
    var job := s.entries[id];
    && job.attempts == Calls(s.started, id) <= job.maxAttempts
    && (job.status == Queued ==> job.attempts < job.maxAttempts)
    && (job.status == Running ==> job.attempts >= 1)
    && (job.status == Queued && job.attempts >= 1 ==>
      job.lastFailure.Some? && job.runAt == job.lastFailure.value + job.backoff * Power2(job.attempts - 1))
  }

  /** Each job is in exactly one place. */
  predicate Placed(s: State, id: Id)
    requires id in s.entries
  {
    && (id in s.queue ==> id !in s.finished && id !in s.cleared && (s.entries[id].status == Queued || s.entries[id].status == Running))
    && (id in s.finished ==> id !in s.cleared)
    && (id in s.queue || id in s.finished || id in s.cleared)
    && (id in s.finished ==> if Terminal(s.entries[id].status) then s.finished[id] == s.entries[id] else s.finished[id].status == Cancelled)
    && (Terminal(s.entries[id].status) ==> id !in s.queue)
  }

  ghost predicate Invariant(s: State) {
    && Distinct(s.queue)
    && (forall id :: id in s.queue || id in s.finished || id in s.cleared ==> id in s.entries)
    && (forall id {:trigger Sane(s, id)} :: id in s.entries ==> Sane(s, id))
    && (forall id {:trigger Placed(s, id)} :: id in s.entries ==> Placed(s, id))
    && forall id :: id in s.started ==> id in s.entries
  }

  lemma CallsAppend(started: seq<Id>, id: Id, other: Id)
    ensures Calls(started + [id], other) == Calls(started, other) + if id == other then 1 else 0
  {
    assert (started + [id])[..|started|] == started;
  }

  lemma {:induction false} NoCalls(started: seq<Id>, id: Id)
    requires id !in started
    ensures Calls(started, id) == 0
  {
    if started == [] {
    } else {
      NoCalls(started[..|started| - 1], id);
    }
  }

  lemma EnqueueKeeps(s: State, e: Event)
    requires Invariant(s) && CanHappen(s, e) && e.Enqueue? && ValidOptions(e.options)
    ensures Invariant(Next(s, e))
  {
    var t := Next(s, e);
    NoCalls(s.started, e.id);
    forall id | id in t.entries
      ensures Sane(t, id) && Placed(t, id)
    {
      if id != e.id {
        assert Sane(s, id) && Placed(s, id);
      }
    }
  }

  lemma BeginKeeps(s: State, id: Id)
    requires Invariant(s) && CanBegin(s, id)
    ensures Invariant(Next(s, Begin(id)))
  {
    var t := Next(s, Begin(id));
    forall other | other in t.entries
      ensures Sane(t, other) && Placed(t, other)
    {
      assert Sane(s, other) && Placed(s, other);
      CallsAppend(s.started, id, other);
    }
  }

  /** A job reaches a terminal status, whether or not it was cancelled meanwhile. */
  lemma SettleKeeps(s: State, id: Id, job: Job)
    requires Invariant(s) && id in s.entries && s.entries[id].status == Running
    requires job == s.entries[id].(status := job.status) && Terminal(job.status)
    ensures Invariant(Settled(s, id, job))
  {
    var t := Settled(s, id, job);
    FilterDistinct(s.queue, (x: Id) => x != id);
    forall other | other in t.entries
      ensures Sane(t, other) && Placed(t, other)
    {
      assert Sane(s, other) && Placed(s, other);
    }
  }

  lemma RetryKeeps(s: State, id: Id, now: int)
    requires Invariant(s) && CanHappen(s, Fail(id, now)) && Retries(s.entries[id])
    ensures Invariant(Next(s, Fail(id, now)))
  {
    var t := Next(s, Fail(id, now));
    forall other | other in t.entries
      ensures Sane(t, other) && Placed(t, other)
    {
      assert Sane(s, other) && Placed(s, other);
    }
  }

  lemma CancelKeeps(s: State, id: Id)
    requires Invariant(s) && id in s.queue
    ensures Invariant(Next(s, Cancel(id)))
  {
    var t := Next(s, Cancel(id));
    FilterDistinct(s.queue, (x: Id) => x != id);
    forall other | other in t.entries
      ensures Sane(t, other) && Placed(t, other)
    {
      assert Sane(s, other) && Placed(s, other);
    }
  }

  lemma ClearKeeps(s: State)
    requires Invariant(s)
    ensures Invariant(Next(s, ClearCompleted))
  {
    var t := Next(s, ClearCompleted);
    forall other | other in t.entries
      ensures Sane(t, other) && Placed(t, other)
    {
      assert Sane(s, other) && Placed(s, other);
    }
  }

  lemma NextKeeps(s: State, e: Event)
    requires Invariant(s) && CanHappen(s, e)
    ensures Invariant(Next(s, e))
  {
    match e {
      case Enqueue(_, options, _) => if ValidOptions(options) { EnqueueKeeps(s, e); }
      case Begin(id) => if CanBegin(s, id) { BeginKeeps(s, id); }
      case Succeed(id) => SettleKeeps(s, id, s.entries[id].(status := Succeeded));
      case Fail(id, now) =>
        if Retries(s.entries[id]) { RetryKeeps(s, id, now); } else { SettleKeeps(s, id, Exhausted(s.entries[id])); }
      case Cancel(id) => if id in s.queue { CancelKeeps(s, id); }
      case ClearCompleted => ClearKeeps(s);
    }
  }

  function InitialState(): State {
    State(map[], [], map[], [], {})
  }

  ghost predicate StepsTo(s: State, t: State) {
    exists e :: CanHappen(s, e) && t == Next(s, e)
  }

  ghost predicate StepAt(states: seq<State>, i: nat)
    requires i + 1 < |states|
  {
    StepsTo(states[i], states[i + 1])
  }

  ghost predicate IsHistory(states: seq<State>) {
    && |states| >= 1 && states[0] == InitialState()
    && forall i: nat {:trigger StepAt(states, i)} :: i + 1 < |states| ==> StepAt(states, i)
  }

  lemma {:induction false} EveryHistoryKeeps(states: seq<State>, n: nat)
    requires IsHistory(states) && n < |states|
    ensures Invariant(states[n])
  {
    if n == 0 {
    } else {
      EveryHistoryKeeps(states, n - 1);
      assert StepAt(states, n - 1);
      var e :| CanHappen(states[n - 1], e) && states[n] == Next(states[n - 1], e);
      NextKeeps(states[n - 1], e);
    }
  }

  /** Until something is cleared, every enqueued job is in exactly one of queue and finished, even if cancelled while running. */
  lemma {:induction false} ExactlyOnePlace(states: seq<State>, n: nat, id: Id)
    requires IsHistory(states) && n < |states| && id in states[n].entries && states[n].cleared == {}
    ensures id in states[n].queue <==> id !in states[n].finished
    ensures Distinct(states[n].queue)
  {
    EveryHistoryKeeps(states, n);
    assert Placed(states[n], id);
  }

  /** The handler of a job is called at most `maxAttempts` times. */
  lemma {:induction false} AttemptsBounded(states: seq<State>, n: nat, id: Id)
    requires IsHistory(states) && n < |states| && id in states[n].entries
    ensures Calls(states[n].started, id) == states[n].entries[id].attempts <= states[n].entries[id].maxAttempts
  {
    EveryHistoryKeeps(states, n);
    assert Sane(states[n], id);
  }

  predicate Due(s: State, id: Id, now: int) {
    CanBegin(s, id) && s.entries[id].runAt <= now
  }

  /** Retry k is not due before its failure time plus `backoff` times 2 to the power k - 1. */
  lemma {:induction false} RetryWaits(states: seq<State>, n: nat, id: Id, now: int)
    requires IsHistory(states) && n < |states| && Due(states[n], id, now) && states[n].entries[id].attempts >= 1
    ensures var job := states[n].entries[id];
      job.lastFailure.Some? && now >= job.lastFailure.value + job.backoff * Power2(job.attempts - 1)
  {
    EveryHistoryKeeps(states, n);
    assert Sane(states[n], id);
  }

  // Cancellation.

  /** The one kind of step that overwrites a cancelled job's record: its own run, still going, ends for good. */
  lemma {:induction false} CancellationOverwritten(s: State, e: Event, id: Id)
    requires Invariant(s) && CanHappen(s, e) && id in s.finished && s.finished[id].status == Cancelled && !e.ClearCompleted?
    ensures id in Next(s, e).finished
    ensures Next(s, e).finished[id].status != Cancelled <==>
      e == Succeed(id) || (e.Fail? && e.id == id && !Retries(s.entries[id]))
    ensures e == Succeed(id) || (e.Fail? && e.id == id) ==> s.entries[id].status == Running
  {
    assert Placed(s, id);
  }

  ghost predicate ContinuesAt(states: seq<State>, i: nat)
    requires i + 1 < |states|
  {
    exists e :: CanHappen(states[i], e) && !e.ClearCompleted? && states[i + 1] == Next(states[i], e)
  }

  /** What may follow `s` as long as `clearCompleted` is not called. */
  ghost predicate IsContinuation(s: State, states: seq<State>) {
    && |states| >= 1 && states[0] == s
    && forall i: nat {:trigger ContinuesAt(states, i)} :: i + 1 < |states| ==> ContinuesAt(states, i)
  }

  ghost predicate StaysCancelled(s: State, id: Id) {
    forall states :: IsContinuation(s, states) ==> RecordedCancelled(states[|states| - 1], id)
  }

  predicate RecordedCancelled(s: State, id: Id) {
    id in s.finished && s.finished[id].status == Cancelled
  }

  /** A job cancelled while it waited: out of the queue and never to run. */
  ghost predicate Withdrawn(s: State, id: Id) {
    Invariant(s) && RecordedCancelled(s, id) && id in s.entries && s.entries[id].status == Queued && id !in s.queue
  }

  lemma WithdrawnStays(s: State, e: Event, id: Id)
    requires Withdrawn(s, id) && CanHappen(s, e) && !e.ClearCompleted?
    ensures Withdrawn(Next(s, e), id)
  {
    NextKeeps(s, e);
    CancellationOverwritten(s, e, id);
    OutOfQueueStays(s, e, id);
  }

  lemma {:induction false} WithdrawnForGood(s: State, id: Id, states: seq<State>, n: nat)
    requires Withdrawn(s, id) && IsContinuation(s, states) && n < |states|
    ensures Withdrawn(states[n], id)
  {
    if n == 0 {
    } else {
      WithdrawnForGood(s, id, states, n - 1);
      assert ContinuesAt(states, n - 1);
      var e :| CanHappen(states[n - 1], e) && !e.ClearCompleted? && states[n] == Next(states[n - 1], e);
      WithdrawnStays(states[n - 1], e, id);
    }
  }

  lemma CancelledWaiting(s: State, id: Id)
    requires Invariant(s) && id in s.queue && s.entries[id].status == Queued
    ensures StaysCancelled(Next(s, Cancel(id)), id)
  {
    var t := Next(s, Cancel(id));
    NextKeeps(s, Cancel(id));
    forall states | IsContinuation(t, states)
      ensures RecordedCancelled(states[|states| - 1], id)
    {
      WithdrawnForGood(t, id, states, |states| - 1);
    }
  }

  lemma CancelledRunning(s: State, id: Id)
    requires id in s.queue && id in s.entries && s.entries[id].status == Running
    ensures !StaysCancelled(Next(s, Cancel(id)), id)
  {
    var t := Next(s, Cancel(id));
    var states := OneStep(t, Succeed(id));
    assert !RecordedCancelled(states[|states| - 1], id);
  }

  lemma OneStep(s: State, e: Event) returns (states: seq<State>)
    requires CanHappen(s, e) && !e.ClearCompleted?
    ensures IsContinuation(s, states) && |states| == 2 && states[1] == Next(s, e)
  {
    states := [s, Next(s, e)];
    assert CanHappen(states[0], e) && states[0 + 1] == Next(states[0], e);
    assert ContinuesAt(states, 0);
  }

  /** Cancelling a job of the queue is final, whatever happens later short of clearing, exactly if the job is not running. */
  lemma {:induction false} CancellationFinalIff(s: State, id: Id)
    requires Invariant(s) && id in s.queue
    ensures StaysCancelled(Next(s, Cancel(id)), id) <==> s.entries[id].status == Queued
  {
    assert Placed(s, id);
    if s.entries[id].status == Queued { CancelledWaiting(s, id); } else { CancelledRunning(s, id); }
  }

  lemma HistoryExtends(states: seq<State>, e: Event)
    requires IsHistory(states) && CanHappen(states[|states| - 1], e)
    ensures IsHistory(states + [Next(states[|states| - 1], e)])
  {
    var longer := states + [Next(states[|states| - 1], e)];
    forall i: nat | i + 1 < |longer|
      ensures StepAt(longer, i)
    {
      assert i + 1 < |states| ==> StepAt(states, i);
      assert i + 1 == |states| ==> longer[i] == states[|states| - 1];
    }
  }

  function OneShot(status: JobStatus, attempts: nat): Job {
    Job(0, 0, attempts, 1, 100, status, None)
  }

  lemma EnqueuedAndBegun()
    ensures var e := Enqueue("a", Options("job", 0, 0, 1, 100), 0);
      CanHappen(InitialState(), e)
      && Next(Next(InitialState(), e), Begin("a")) == State(map["a" := OneShot(Running, 1)], ["a"], map[], ["a"], {})
  {
    assert 'j' in "job" && !IsSpace('j');
    var s := Next(InitialState(), Enqueue("a", Options("job", 0, 0, 1, 100), 0));
    assert s == State(map["a" := OneShot(Queued, 0)], ["a"], map[], [], {});
  }

  lemma CancelledAndSucceeded()
    ensures var s := Next(State(map["a" := OneShot(Running, 1)], ["a"], map[], ["a"], {}), Cancel("a"));
      RecordedCancelled(s, "a") && CanHappen(s, Succeed("a"))
      && "a" in Next(s, Succeed("a")).finished && Next(s, Succeed("a")).finished["a"].status == Succeeded
  {
  }

  /** A job with one attempt is enqueued, begun, cancelled while it runs, and succeeds: its record says so. */
  lemma {:induction false} CancelledJobSucceeds() returns (states: seq<State>)
    ensures IsHistory(states) && |states| == 5
    ensures RecordedCancelled(states[3], "a")
    ensures "a" in states[4].finished && states[4].finished["a"].status == Succeeded
  {
    EnqueuedAndBegun();
    CancelledAndSucceeded();
    states := [InitialState()];
    HistoryExtends(states, Enqueue("a", Options("job", 0, 0, 1, 100), 0));
    states := states + [Next(states[0], Enqueue("a", Options("job", 0, 0, 1, 100), 0))];
    HistoryExtends(states, Begin("a"));
    states := states + [Next(states[1], Begin("a"))];
    HistoryExtends(states, Cancel("a"));
    states := states + [Next(states[2], Cancel("a"))];
    HistoryExtends(states, Succeed("a"));
    states := states + [Next(states[3], Succeed("a"))];
  }

  lemma OutOfQueueStays(s: State, e: Event, id: Id)
    requires CanHappen(s, e) && id in s.entries && id !in s.queue
    ensures id in Next(s, e).entries && id !in Next(s, e).queue
    ensures Calls(Next(s, e).started, id) == Calls(s.started, id)
  {
    if e.Begin? {
      CallsAppend(s.started, e.id, id);
    }
  }

  /** A retry after a cancellation never runs: the job has left the queue for good. */
  lemma {:induction false} CancelledNeverBegins(states: seq<State>, from: nat, end: nat, id: Id)
    requires IsHistory(states) && from <= end < |states| && id in states[from].entries && id !in states[from].queue
    ensures id in states[end].entries && id !in states[end].queue
    ensures Calls(states[end].started, id) == Calls(states[from].started, id)
  {
    if from == end {
    } else {
      CancelledNeverBegins(states, from, end - 1, id);
      assert StepAt(states, end - 1);
      var e :| CanHappen(states[end - 1], e) && states[end] == Next(states[end - 1], e);
      OutOfQueueStays(states[end - 1], e, id);
    }
  }
}
