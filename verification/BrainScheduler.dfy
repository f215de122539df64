/** `BrainTaskScheduler` (`brain-scheduler.ts`) as an object: its queue operations and the `drain` loop. */
module BrainScheduler {
  import opened Prelude
  import opened JobQueue
  import opened JobDrain

  class BrainTaskScheduler {
    const concurrency: nat
    /** The clock's successive readings, and what each handler does on each attempt. */
    const clock: Clock
    const handlers: Handlers
    var readings: nat
    var entries: map<Id, Job>
    var queue: seq<Id>
    var finished: map<Id, Job>
    ghost var started: seq<Id>
    ghost var cleared: set<Id>

    constructor (concurrency: nat, clock: Clock, handlers: Handlers)
      requires concurrency >= 1
      ensures entries == map[] && queue == [] && finished == map[]
      ensures View() == InitialState() && this.concurrency == concurrency && this.clock == clock && this.handlers == handlers
    {
      this.concurrency, this.clock, this.handlers := concurrency, clock, handlers;
      readings, entries, queue, finished, started, cleared := 0, map[], [], map[], [], {};
    }

    ghost function View(): State
      reads this
    {
      State(entries, queue, finished, started, cleared)
    }

    method Now() returns (now: int)
      modifies this`readings
      ensures now == clock(old(readings)) && readings == old(readings) + 1
    {
      now := clock(readings);
      readings := readings + 1;
    }

    method Enqueue(id: Id, options: Options) returns (r: Result<()>)
      requires id !in entries
      modifies this
      ensures r == if ValidOptions(options) then Ok(()) else Err(InvalidArgument)
      ensures View() == Next(old(View()), JobQueue.Enqueue(id, options, clock(old(readings))))
      ensures r.Ok? <==> options.maxAttempts >= 1 && options.delay >= 0 && exists c :: c in options.name && !IsSpace(c)
      ensures r.Ok? ==> queue == old(queue) + [id] && finished == old(finished) && readings == old(readings) + 1
      ensures r.Ok? ==> entries == old(entries)[id := Job(options.priority, clock(old(readings)) + options.delay, 0, options.maxAttempts, options.backoff,
                                                          Queued, None)]
      ensures r.Err? ==> View() == old(View())
    {
      if Blank(options.name) || options.maxAttempts < 1 || options.delay < 0 { return Err(InvalidArgument); }
      var now := Now();
      entries := entries[id := NewJob(options, now)];
      queue := queue + [id];
      return Ok(());
    }

    /** `runJob` up to calling the handler. */
    method BeginJob(id: Id) returns (began: bool)
      requires Invariant(View())
      modifies this
      ensures began == CanBegin(old(View()), id) && readings == old(readings)
      ensures View() == Next(old(View()), Begin(id))
    {
      if id !in queue || entries[id].status != Queued { return false; }
      entries := entries[id := Begun(entries[id])];
      started := started + [id];
      return true;
    }

    /** The rest of `runJob`; returns the job if it has reached a terminal status. A retry counts from the clock reading made here. */
    method FinishJob(id: Id) returns (r: Option<Job>)
      requires Invariant(View()) && id in entries && entries[id].status == Running && entries[id].attempts >= 1
      modifies this
      ensures View() == Next(old(View()), Finishing(handlers, old(View()), id, clock(old(readings))))
      ensures readings == old(readings) + if r.None? then 1 else 0
      ensures r == if Terminal(entries[id].status) then Some(entries[id]) else None
    {
      var job := entries[id];
      if handlers(id, job.attempts) {
        entries := entries[id := job.(status := Succeeded)];
        Settle(id);
        return Some(entries[id]);
      }
      if job.attempts < job.maxAttempts {
        var now := Now();
        entries := entries[id := Requeued(job, now)];
        return None;
      }
      entries := entries[id := Exhausted(job)];
      Settle(id);
      return Some(entries[id]);
    }

    method Settle(id: Id)
      requires id in entries && Distinct(queue)
      modifies this
      ensures readings == old(readings) && entries == old(entries) && View() == Settled(old(View()), id, entries[id])
    {
      queue := Without(queue, id);
      finished := finished[id := entries[id]];
      cleared := cleared - {id};
    }

    method Cancel(id: Id) returns (r: Result<Job>)
      requires Invariant(View())
      modifies this
      ensures View() == Next(old(View()), JobQueue.Cancel(id))
      ensures r.Ok? <==> id in old(queue)
      ensures r.Ok? ==> r.value == finished[id] && r.value == entries[id].(status := Cancelled) && entries == old(entries)
      ensures r.Ok? ==> finished == old(finished)[id := r.value] && forall x :: x in queue <==> x in old(queue) && x != id
      ensures r.Err? ==> View() == old(View())
    {
      if id !in queue { return Err(NotFound); }
      var cancelled := entries[id].(status := Cancelled);
      queue := Without(queue, id);
      finished := finished[id := cancelled];
      return Ok(cancelled);
    }

    method ClearCompleted()
      modifies this
      ensures View() == Next(old(View()), JobQueue.ClearCompleted)
      ensures finished == map[] && entries == old(entries) && queue == old(queue)
    {
      cleared := cleared + finished.Keys;
      finished := map[];
    }

    /** Calls the handlers of a batch, in order. */
    method BeginAll(batch: seq<Id>)
      requires Invariant(View()) && Distinct(batch) && forall id :: id in batch ==> CanBegin(View(), id)
      modifies this
      ensures MidBatch(old(View()), View(), batch, Elements(batch), map[], handlers) && readings == old(readings)
    {
      for i := 0 to |batch|
        invariant MidBatch(old(View()), View(), batch[..i], Elements(batch[..i]), map[], handlers) && readings == old(readings)
      {
        BeginOne(old(View()), View(), batch[..i], batch[i], handlers);
        assert batch[..i + 1] == batch[..i] + [batch[i]];
        var _ := BeginJob(batch[i]);
      }
      assert batch[..|batch|] == batch;
    }

    /** One job of a running batch finishes; `done` gathers those that became terminal. */
    method FinishNext(id: Id, ghost start: State, ghost batch: seq<Id>, ghost running: set<Id>, done: Settling, ghost from: nat)
      returns (done': Settling)
      requires Invariant(start) && MidBatch(start, View(), batch, running, done, handlers) && id in running && from <= readings
      requires RetriesTimed(View(), batch, running, done, clock, from, readings)
      modifies this
      ensures MidBatch(start, View(), batch, running - {id}, done', handlers) && readings >= old(readings)
      ensures RetriesTimed(View(), batch, running - {id}, done', clock, from, readings)
    {
      ghost var before, reading := View(), readings;
      RunningSane(before, id);
      FinishOne(start, before, batch, running, done, handlers, id, clock(reading));
      var job := FinishJob(id);
      FinishTimed(start, before, batch, running, done, handlers, id, clock, from, reading, readings);
      done' := if job.Some? then done[id := job.value] else done;
    }

    /** Starts a batch in order, lets the handlers finish in any order, and returns the jobs that became terminal in batch order. */
    method RunBatch(batch: seq<Id>) returns (terminal: seq<Id>, ghost settled: Settling)
      requires Invariant(View()) && Distinct(batch) && forall id :: id in batch ==> CanBegin(View(), id)
      modifies this
      ensures MidBatch(old(View()), View(), batch, {}, settled, handlers) && readings >= old(readings)
      ensures RetriesTimed(View(), batch, {}, settled, clock, old(readings), readings)
      ensures Distinct(terminal) && Elements(terminal) == settled.Keys
    {
      BeginAll(batch);
      var running, done := set id | id in batch, map[];
      while running != {}
        invariant MidBatch(old(View()), View(), batch, running, done, handlers) && readings >= old(readings)
        invariant RetriesTimed(View(), batch, running, done, clock, old(readings), readings)
      {
        var id :| id in running;
        done := FinishNext(id, old(View()), batch, running, done, old(readings));
        running := running - {id};
      }
      settled := done;
      terminal := Filter(batch, (id: Id) => id in done);
      FilterDistinct(batch, (id: Id) => id in done);
      assert Elements(terminal) == done.Keys;
    }

    /** `dueJobs` */
    method DueJobs() returns (due: seq<Id>, now: int)
      requires Invariant(View())
      modifies this`readings
      ensures now == clock(old(readings)) && readings == old(readings) + 1 && View() == old(View())
      ensures due == SortDue(entries, DueIds(entries, queue, now)) && (due == [] ==> NothingDue(View(), now))
    {
      now := Now();
      due := SortDue(entries, DueIds(entries, queue, now));
      if due == [] { EmptyMeansNothingDue(View(), now); }
    }

    /** Runs a batch of the jobs due at reading `reading`, in a drain that began in `start` at reading `from`. */
    method Turn(due: seq<Id>, ghost reading: nat, ghost start: State, ghost from: nat, ghost so: seq<Id>, ghost passes: seq<Pass>)
      returns (terminal: seq<Id>, ghost pass: Pass)
      requires concurrency >= 1 && from <= reading && readings == reading + 1
      requires due != [] && due == SortDue(entries, DueIds(entries, queue, clock(reading)))
      requires Drained(start, passes, View(), so, concurrency, handlers, clock, from, reading)
      modifies this
      ensures Drained(start, passes + [pass], View(), so + terminal, concurrency, handlers, clock, from, readings)
      ensures Remaining(entries, queue) < old(Remaining(entries, queue)) && readings >= old(readings)
    {
      ghost var before := View();
      var batch := due[..if |due| <= concurrency then |due| else concurrency];
      PrefixIsBatch(before, clock(reading), concurrency);
      ghost var settled;
      terminal, settled := RunBatch(batch);
      CompletesFurther(start, before, View(), so, batch, settled, terminal, handlers);
      pass := Pass(before, reading, batch, View());
      BatchIsPass(pass, concurrency, settled, handlers, clock, readings);
      PassesFurther(start, passes, pass, concurrency, clock, from, readings);
    }

    /**
     Runs due jobs, batch after batch, until none is due; terminates because every batch uses up attempts. Each batch is
     picked at a reading of the clock that this drain makes, and nothing is due at the last of them.
     */
    method Drain() returns (completed: seq<Id>, ghost passes: seq<Pass>)
      requires Invariant(View()) && concurrency >= 1
      modifies this
      ensures readings > old(readings)
      ensures Drained(old(View()), passes, View(), completed, concurrency, handlers, clock, old(readings), readings - 1)
      ensures NothingDue(View(), clock(readings - 1))
    {
      completed, passes := [], [];
      DrainStarts(View(), concurrency, handlers, clock, readings);
      while true
        invariant readings >= old(readings)
        invariant Drained(old(View()), passes, View(), completed, concurrency, handlers, clock, old(readings), readings)
        decreases Remaining(entries, queue)
      {
        ghost var reading := readings;
        var due, now := DueJobs();
        if due == [] { return; }
        var terminal, pass := Turn(due, reading, old(View()), old(readings), completed, passes);
        completed, passes := completed + terminal, passes + [pass];
      }
    }
  }

  lemma RunningSane(s: State, id: Id)
    requires Invariant(s) && id in s.entries && s.entries[id].status == Running
    ensures s.entries[id].attempts >= 1
  {
    assert Sane(s, id);
  }
}
