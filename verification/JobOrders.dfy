/** Jobs keep what they were enqueued with, and `drain` goes by it (`brain-scheduler.ts`). */
module JobOrders {
  import opened Prelude
  import opened JobQueue
  import opened JobDrain
  import opened Sorting

  /** Step `i` of the history enqueued the job with these options at this time. */
  ghost predicate EnqueuedAt(states: seq<State>, i: nat, id: Id, options: Options, at: int) {
    && i + 1 < |states| && ValidOptions(options) && id !in states[i].entries
    && states[i + 1] == Next(states[i], Enqueue(id, options, at))
  }

  /** What the job's own `enqueue` fixed, and what it says before the first attempt. */
  ghost predicate As(job: Job, options: Options, at: int) {
    && job.priority == options.priority && job.maxAttempts == options.maxAttempts && job.backoff == options.backoff
    && (job.attempts == 0 ==> job.runAt == at + options.delay)
  }

  lemma NewAs(s: State, id: Id, options: Options, at: int)
    requires ValidOptions(options) && id !in s.entries
    ensures var t := Next(s, Enqueue(id, options, at));
      id in t.entries && As(t.entries[id], options, at) && t.entries[id].attempts == 0 && t.entries[id].status == Queued
      && t.queue == s.queue + [id] && t.finished == s.finished
  {
  }

  lemma StepKeepsAs(s: State, e: Event, id: Id, options: Options, at: int)
    requires Invariant(s) && CanHappen(s, e) && id in s.entries && As(s.entries[id], options, at)
    ensures id in Next(s, e).entries && As(Next(s, e).entries[id], options, at)
  {
    assert Sane(s, id);
  }

  /** Every job of every history was enqueued by exactly one step, and keeps the priority, limit and backoff it was given there. */
  lemma {:induction false} JobsKeepTheirOptions(states: seq<State>, n: nat, id: Id) returns (i: nat, options: Options, at: int)
    requires IsHistory(states) && n < |states| && id in states[n].entries
    ensures i < n && EnqueuedAt(states, i, id, options, at) && As(states[n].entries[id], options, at)
  {
    if n == 0 {
      assert false;
    } else {
      assert StepAt(states, n - 1);
      var e :| CanHappen(states[n - 1], e) && states[n] == Next(states[n - 1], e);
      if id in states[n - 1].entries {
        i, options, at := JobsKeepTheirOptions(states, n - 1, id);
        EveryHistoryKeeps(states, n - 1);
        StepKeepsAs(states[n - 1], e, id, options, at);
      } else {
        i, options, at := n - 1, e.options, e.now;
        NewAs(states[n - 1], id, options, at);
      }
    }
  }

  lemma {:induction false} EntriesStay(states: seq<State>, i: nat, n: nat, id: Id)
    requires IsHistory(states) && i <= n < |states| && id in states[i].entries
    ensures id in states[n].entries
  {
    if i < n {
      EntriesStay(states, i, n - 1, id);
      assert StepAt(states, n - 1);
      var e :| CanHappen(states[n - 1], e) && states[n] == Next(states[n - 1], e);
    }
  }

  lemma EnqueuedOnce(states: seq<State>, i: nat, j: nat, id: Id, options: Options, at: int, others: Options, then': int)
    requires IsHistory(states) && EnqueuedAt(states, i, id, options, at) && EnqueuedAt(states, j, id, others, then')
    ensures i == j
  {
    NewAs(states[i], id, options, at);
    NewAs(states[j], id, others, then');
    if i < j { EntriesStay(states, i + 1, j, id); }
    if j < i { EntriesStay(states, j + 1, i, id); }
  }

  lemma {:induction false} AsEnqueued(states: seq<State>, n: nat, i: nat, id: Id, options: Options, at: int)
    requires IsHistory(states) && i < n < |states| && EnqueuedAt(states, i, id, options, at)
    ensures id in states[n].entries && As(states[n].entries[id], options, at)
  {
    NewAs(states[i], id, options, at);
    if n > i + 1 {
      AsEnqueued(states, n - 1, i, id, options, at);
      EveryHistoryKeeps(states, n - 1);
      assert StepAt(states, n - 1);
      var e :| CanHappen(states[n - 1], e) && states[n] == Next(states[n - 1], e);
      StepKeepsAs(states[n - 1], e, id, options, at);
    }
  }

  /** A job that has not been tried is not due before it was enqueued plus its delay. */
  lemma {:induction false} DelayWaits(states: seq<State>, n: nat, i: nat, id: Id, options: Options, at: int, now: int)
    requires IsHistory(states) && i < n < |states| && EnqueuedAt(states, i, id, options, at)
    requires Due(states[n], id, now) && states[n].entries[id].attempts == 0
    ensures now >= at + options.delay
  {
    AsEnqueued(states, n, i, id, options, at);
  }

  /** A retry waits for the backoff the job was enqueued with, and each further one twice as long. */
  lemma {:induction false} BackoffDoubles(states: seq<State>, n: nat, i: nat, id: Id, options: Options, at: int, now: int)
    requires IsHistory(states) && i < n < |states| && EnqueuedAt(states, i, id, options, at)
    requires Due(states[n], id, now) && states[n].entries[id].attempts >= 1
    ensures var job := states[n].entries[id];
      job.lastFailure.Some? && now >= job.lastFailure.value + Waiting(options.backoff, job.attempts)
  {
    AsEnqueued(states, n, i, id, options, at);
    RetryWaits(states, n, id, now);
    WaitingIs(options.backoff, states[n].entries[id].attempts);
  }

  function Waiting(backoff: int, attempts: nat): int
    requires attempts >= 1
  {
    if attempts == 1 then backoff else 2 * Waiting(backoff, attempts - 1)
  }

  lemma {:induction false} WaitingIs(backoff: int, attempts: nat)
    requires attempts >= 1
    ensures Waiting(backoff, attempts) == backoff * Power2(attempts - 1)
  {
    if attempts > 1 {
      WaitingIs(backoff, attempts - 1);
      Doubled(backoff, Power2(attempts - 2));
    }
  }

  lemma Doubled(x: int, y: int)
    ensures x * (2 * y) == 2 * (x * y)
  {
  }

  lemma BatchOrdered(s: State, now: int, slots: nat, batch: seq<Id>, a: int, b: int)
    requires IsBatch(s, now, slots, batch) && 0 <= a < |batch| && 0 <= b < |batch| && a != b && !IdBefore(s.entries, batch[b], batch[a])
    ensures a < b
  {
  }

  /** Of two due jobs the one enqueued with the higher priority is never left out for the other, nor begun after it. */
  lemma {:induction false} HigherPriorityFirst(states: seq<State>, n: nat, now: int, slots: nat, batch: seq<Id>,
                                               high: Id, i: nat, given: Options, at: int, low: Id, j: nat, others: Options, then': int)
    requires IsHistory(states) && i < n < |states| && j < n && IsBatch(states[n], now, slots, batch)
    requires EnqueuedAt(states, i, high, given, at) && EnqueuedAt(states, j, low, others, then') && given.priority > others.priority
    requires Due(states[n], high, now) && low in batch
    ensures Precedes(batch, high, low)
  {
    AsEnqueued(states, n, i, high, given, at);
    AsEnqueued(states, n, j, low, others, then');
    var b :| 0 <= b < |batch| && batch[b] == low;
    assert high in batch;
    var a :| 0 <= a < |batch| && batch[a] == high;
    BatchOrdered(states[n], now, slots, batch, a, b);
  }

  /** Of two due jobs of one priority, the one due earlier is never left out for the other, nor begun after it. */
  lemma {:induction false} EarlierDueFirst(s: State, now: int, slots: nat, batch: seq<Id>, early: Id, late: Id)
    requires IsBatch(s, now, slots, batch) && Due(s, early, now) && late in batch && late in s.entries
    requires s.entries[early].priority == s.entries[late].priority && s.entries[early].runAt < s.entries[late].runAt
    ensures Precedes(batch, early, late)
  {
    var b :| 0 <= b < |batch| && batch[b] == late;
    assert early in batch;
    var a :| 0 <= a < |batch| && batch[a] == early;
    BatchOrdered(s, now, slots, batch, a, b);
  }

  /** Among jobs of one priority and one due time, the due list keeps the order of the queue. */
  lemma {:induction false} TiesInQueueOrder(s: State, now: int, i: nat, j: nat)
    requires Distinct(s.queue) && i < j < |s.queue| && Due(s, s.queue[i], now) && Due(s, s.queue[j], now)
    requires s.entries[s.queue[i]].priority == s.entries[s.queue[j]].priority && s.entries[s.queue[i]].runAt == s.entries[s.queue[j]].runAt
    ensures Precedes(SortDue(s.entries, DueIds(s.entries, s.queue, now)), s.queue[i], s.queue[j])
  {
    var due := DueIds(s.entries, s.queue, now);
    var a, b := FilterOrder(s.queue, (id: Id) => id in s.entries && s.entries[id].status == Queued && s.entries[id].runAt <= now, i, j);
    SameRank(s.entries, due);
    SortStable(due, (x: Id, y: Id) => IdBefore(s.entries, x, y), a, b);
  }

  lemma SameRank(entries: map<Id, Job>, ids: seq<Id>)
    requires forall id :: id in ids ==> id in entries
    ensures Ranks(ids, (x: Id, y: Id) => IdBefore(entries, x, y))
  {
  }

  /** How a job ended: by its last attempt, as dead if it had more than one, as failed if it had just that one. */
  ghost predicate EndedSo(job: Job) {
    && (job.status == Dead ==> job.maxAttempts > 1 && job.attempts == job.maxAttempts)
    && (job.status == Failed ==> job.maxAttempts == 1 == job.attempts)
  }

  lemma {:induction false} EndingsExplained(states: seq<State>, n: nat, id: Id)
    requires IsHistory(states) && n < |states| && id in states[n].entries
    ensures EndedSo(states[n].entries[id])
  {
    if n > 0 {
      EveryHistoryKeeps(states, n - 1);
      assert StepAt(states, n - 1);
      var e :| CanHappen(states[n - 1], e) && states[n] == Next(states[n - 1], e);
      if id in states[n - 1].entries {
        EndingsExplained(states, n - 1, id);
        assert Sane(states[n - 1], id);
      }
    }
  }
}
