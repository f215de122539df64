/** What one `drain` may do: batches of due jobs, highest priority first, while attempts remain (`brain-scheduler.ts`). */
module JobDrain {
  import opened Prelude
  import opened JobQueue
  import opened Sorting

  type Handlers = (Id, nat) -> bool

  /** The successive readings of the clock. */
  type Clock = nat -> int

  /** The comparator of `dueJobs`: no later in the order. */
  predicate Before(a: Job, b: Job) {
    a.priority > b.priority || (a.priority == b.priority && a.runAt <= b.runAt)
  }

  predicate IdBefore(entries: map<Id, Job>, a: Id, b: Id) {
    a in entries && b in entries && Before(entries[a], entries[b])
  }

  function SortDue(entries: map<Id, Job>, ids: seq<Id>): seq<Id> {
    SortBy(ids, (a: Id, b: Id) => IdBefore(entries, a, b))
  }

  lemma SortDueOrders(entries: map<Id, Job>, ids: seq<Id>)
    requires forall x :: x in ids ==> x in entries
    ensures var due := SortDue(entries, ids);
      Ordered(due, (a: Id, b: Id) => IdBefore(entries, a, b)) && (Distinct(ids) ==> Distinct(due)) && forall x :: x in due <==> x in ids
  {
    SortOrders(ids, (a: Id, b: Id) => IdBefore(entries, a, b));
  }

  /** `dueJobs` before sorting. */
  function DueIds(entries: map<Id, Job>, queue: seq<Id>, now: int): seq<Id> {
    Filter(queue, (id: Id) => id in entries && entries[id].status == Queued && entries[id].runAt <= now)
  }

  /** Every job still queued has its time after `now`. */
  ghost predicate NothingDue(s: State, now: int) {
    forall id :: id in s.queue && id in s.entries && s.entries[id].status == Queued ==> now < s.entries[id].runAt
  }

  /** `drain` runs as many due jobs as it has slots for, and none that another due job comes before, in that order. */
  ghost predicate IsBatch(s: State, now: int, slots: nat, batch: seq<Id>) {
    && Distinct(batch) && |batch| <= slots
    && (forall i, j :: 0 <= i < j < |batch| ==> IdBefore(s.entries, batch[i], batch[j]))
    && (forall id :: id in batch ==> Due(s, id, now))
    && (forall id :: Due(s, id, now) ==> id in batch || |batch| == slots)
    && forall id, other :: id in batch && other !in batch && Due(s, other, now) ==> Before(s.entries[id], s.entries[other])
  }

  lemma PrefixFirst(entries: map<Id, Job>, due: seq<Id>, n: nat, id: Id, other: Id)
    requires Ordered(due, (a: Id, b: Id) => IdBefore(entries, a, b)) && n <= |due| && id in due[..n] && other in due && other !in due[..n]
    ensures IdBefore(entries, id, other)
  {
    var i :| 0 <= i < n && due[i] == id;
    assert due == due[..n] + due[n..];
    var j :| n <= j < |due| && due[j] == other;
  }

  lemma SortedDue(s: State, now: int)
    requires Distinct(s.queue)
    ensures var due := SortDue(s.entries, DueIds(s.entries, s.queue, now));
      Distinct(due) && Ordered(due, (a: Id, b: Id) => IdBefore(s.entries, a, b)) && forall id :: id in due <==> Due(s, id, now)
  {
    FilterDistinct(s.queue, (id: Id) => id in s.entries && s.entries[id].status == Queued && s.entries[id].runAt <= now);
    SortDueOrders(s.entries, DueIds(s.entries, s.queue, now));
  }

  lemma EmptyMeansNothingDue(s: State, now: int)
    requires Distinct(s.queue) && SortDue(s.entries, DueIds(s.entries, s.queue, now)) == []
    ensures NothingDue(s, now)
  {
    SortedDue(s, now);
  }

  lemma PrefixIsBatch(s: State, now: int, slots: nat)
    requires Distinct(s.queue)
    ensures var due := SortDue(s.entries, DueIds(s.entries, s.queue, now)); IsBatch(s, now, slots, due[..if |due| <= slots then |due| else slots])
  {
    var due := SortDue(s.entries, DueIds(s.entries, s.queue, now));
    var n := if |due| <= slots then |due| else slots;
    SortedDue(s, now);
    forall id, other | id in due[..n] && other !in due[..n] && other in due
      ensures Before(s.entries[id], s.entries[other])
    {
      PrefixFirst(s.entries, due, n, id, other);
    }
  }

  // The termination measure.

  function Left(entries: map<Id, Job>, id: Id): nat {
    if id in entries && entries[id].attempts < entries[id].maxAttempts then entries[id].maxAttempts - entries[id].attempts else 0
  }

  /** Attempts that the queued jobs have left. */
  function Remaining(entries: map<Id, Job>, queue: seq<Id>): nat {
    if queue == [] then 0 else Left(entries, queue[0]) + Remaining(entries, queue[1..])
  }

  lemma {:induction false} RemainingAgrees(a: map<Id, Job>, b: map<Id, Job>, queue: seq<Id>)
    requires forall id :: id in queue ==> Left(a, id) == Left(b, id)
    ensures Remaining(a, queue) == Remaining(b, queue)
  {
    if queue == [] {
    } else {
      RemainingAgrees(a, b, queue[1..]);
    }
  }

  lemma {:induction false} RemainingDrops(a: map<Id, Job>, b: map<Id, Job>, queue: seq<Id>, id: Id)
    requires Distinct(queue) && id in queue && Left(a, id) == Left(b, id) + 1
    requires forall x :: x in queue && x != id ==> Left(a, x) == Left(b, x)
    ensures Remaining(a, queue) == Remaining(b, queue) + 1
  {
    if queue[0] == id {
      RemainingAgrees(a, b, queue[1..]);
    } else {
      RemainingDrops(a, b, queue[1..], id);
    }
  }

  lemma {:induction false} RemainingWithout(entries: map<Id, Job>, queue: seq<Id>, id: Id)
    ensures Remaining(entries, Without(queue, id)) <= Remaining(entries, queue)
  {
    if queue == [] {
    } else {
      RemainingWithout(entries, queue[1..], id);
      var rest := Without(queue[1..], id);
      if queue[0] == id {
        assert Without(queue, id) == [] + rest == rest;
      } else {
        assert Without(queue, id) == [queue[0]] + rest;
        assert ([queue[0]] + rest)[1..] == rest;
      }
    }
  }

  lemma StepLeaves(s: State, e: Event)
    requires Invariant(s) && CanHappen(s, e) && (e.Begin? || e.Succeed? || e.Fail?)
    ensures Remaining(Next(s, e).entries, Next(s, e).queue) <= Remaining(s.entries, s.queue) - if e.Begin? && CanBegin(s, e.id) then 1 else 0
  {
    var t := Next(s, e);
    if e.Begin? {
      if CanBegin(s, e.id) {
        assert Sane(s, e.id);
        RemainingDrops(s.entries, t.entries, s.queue, e.id);
      }
    } else {
      RemainingAgrees(s.entries, t.entries, s.queue);
      RemainingWithout(t.entries, s.queue, e.id);
    }
  }

  // A batch under way.

  /** The jobs of a batch that reached a terminal status, with what became of them. */
  type Settling = map<Id, Job>

  ghost predicate JobsSettled(t: State, settled: Settling, handlers: Handlers) {
    forall id :: id in settled ==>
      && id in t.finished && t.finished[id] == settled[id] && Terminal(settled[id].status)
      && (settled[id].status == Succeeded <==> handlers(id, settled[id].attempts))
  }

  /** Where the jobs of the batch, and all others, are. */
  ghost predicate BatchPlaces(s: State, t: State, begun: seq<Id>, running: set<Id>, settled: Settling) {
    && t.entries.Keys == s.entries.Keys && t.started == s.started + begun
    && running <= Elements(begun) && settled.Keys <= Elements(begun) - running
    && (forall id :: id in running ==> id in t.entries && t.entries[id].status == Running)
    && t.finished.Keys == s.finished.Keys + settled.Keys && settled.Keys !! s.finished.Keys
    && (forall id :: id in s.entries && id !in begun ==> t.entries[id] == s.entries[id] && (id in t.queue <==> id in s.queue))
    && (forall id :: id in begun ==> id in s.queue)
  }

  /** `begun` jobs of the batch have had their handler called, `running` of them have not finished. */
  ghost predicate MidBatch(s: State, t: State, begun: seq<Id>, running: set<Id>, settled: Settling, handlers: Handlers) {
    && Invariant(t) && BatchPlaces(s, t, begun, running, settled)
    && JobsSettled(t, settled, handlers)
    && Remaining(t.entries, t.queue) + |begun| <= Remaining(s.entries, s.queue)
  }

  lemma BeginPlaces(s: State, t: State, begun: seq<Id>, id: Id)
    requires BatchPlaces(s, t, begun, Elements(begun), map[]) && CanBegin(s, id) && id !in begun
    ensures CanBegin(t, id) && BatchPlaces(s, Next(t, Begin(id)), begun + [id], Elements(begun + [id]), map[])
  {
    assert Elements(begun + [id]) == Elements(begun) + {id};
  }

  lemma BeginOne(s: State, t: State, begun: seq<Id>, id: Id, handlers: Handlers)
    requires MidBatch(s, t, begun, Elements(begun), map[], handlers)
    requires CanBegin(s, id) && id !in begun
    ensures CanBegin(t, id) && MidBatch(s, Next(t, Begin(id)), begun + [id], Elements(begun + [id]), map[], handlers)
  {
    BeginPlaces(s, t, begun, id);
    NextKeeps(t, Begin(id));
    StepLeaves(t, Begin(id));
  }

  /** What the handler's outcome makes of a running job. */
  function Finishing(handlers: Handlers, s: State, id: Id, now: int): Event
    requires id in s.entries
  {
    if handlers(id, s.entries[id].attempts) then Succeed(id) else Fail(id, now)
  }

  function WithSettled(settled: Settling, id: Id, job: Job): Settling {
    if Terminal(job.status) then settled[id := job] else settled
  }

  lemma FinishPlaces(s: State, t: State, begun: seq<Id>, running: set<Id>, settled: Settling, e: Event)
    requires Invariant(s) && BatchPlaces(s, t, begun, running, settled) && (e.Succeed? || e.Fail?) && e.id in running
    requires CanHappen(t, e)
    ensures var u := Next(t, e); BatchPlaces(s, u, begun, running - {e.id}, WithSettled(settled, e.id, u.entries[e.id]))
  {
    assert e.id in Elements(begun);
    assert Placed(s, e.id);
    FinishMoves(t, e);
    MovedPlaces(s, t, Next(t, e), begun, running, settled, e.id);
  }

  lemma MovedPlaces(s: State, t: State, u: State, begun: seq<Id>, running: set<Id>, settled: Settling, id: Id)
    requires BatchPlaces(s, t, begun, running, settled) && id in running && id in t.entries && id !in s.finished
    requires u.entries.Keys == t.entries.Keys && u.started == t.started
    requires forall x :: x in t.entries && x != id ==> u.entries[x] == t.entries[x] && (x in u.queue <==> x in t.queue)
    requires u.finished.Keys == t.finished.Keys + if Terminal(u.entries[id].status) then {id} else {}
    ensures BatchPlaces(s, u, begun, running - {id}, WithSettled(settled, id, u.entries[id]))
  {
    assert id in Elements(begun);
  }

  /** What the end of a run changes. */
  lemma FinishMoves(t: State, e: Event)
    requires CanHappen(t, e) && (e.Succeed? || e.Fail?)
    ensures var u := Next(t, e);
      && u.entries.Keys == t.entries.Keys && u.started == t.started
      && (forall id :: id in t.entries && id != e.id ==> u.entries[id] == t.entries[id] && (id in u.queue <==> id in t.queue))
      && u.finished.Keys == t.finished.Keys + if Terminal(u.entries[e.id].status) then {e.id} else {}
  {
  }

  lemma FinishOutcomes(t: State, settled: Settling, handlers: Handlers, id: Id, now: int)
    requires id in t.entries && t.entries[id].status == Running && t.entries[id].attempts >= 1
    requires JobsSettled(t, settled, handlers) && id !in settled
    ensures var u := Next(t, Finishing(handlers, t, id, now)); JobsSettled(u, WithSettled(settled, id, u.entries[id]), handlers)
  {
  }

  lemma FinishOne(s: State, t: State, begun: seq<Id>, running: set<Id>, settled: Settling, handlers: Handlers, id: Id, now: int)
    requires Invariant(s) && MidBatch(s, t, begun, running, settled, handlers) && id in running
    ensures CanHappen(t, Finishing(handlers, t, id, now))
    ensures var u := Next(t, Finishing(handlers, t, id, now));
      MidBatch(s, u, begun, running - {id}, WithSettled(settled, id, u.entries[id]), handlers)
  {
    assert Sane(t, id);
    var e := Finishing(handlers, t, id, now);
    NextKeeps(t, e);
    StepLeaves(t, e);
    FinishPlaces(s, t, begun, running, settled, e);
    FinishOutcomes(t, settled, handlers, id, now);
  }

  /** The jobs of the batch that have finished without reaching a terminal status and were not cancelled wait for a retry. */
  ghost predicate RetriesTimed(t: State, begun: seq<Id>, running: set<Id>, settled: Settling, clock: Clock, from: nat, until: nat) {
    forall id :: id in begun && id !in running && id !in settled ==> PutBack(t, id, clock, from, until)
  }

  lemma FinishTimed(s: State, t: State, begun: seq<Id>, running: set<Id>, settled: Settling, handlers: Handlers, id: Id,
                    clock: Clock, from: nat, reading: nat, until: nat)
    requires MidBatch(s, t, begun, running, settled, handlers) && RetriesTimed(t, begun, running, settled, clock, from, reading)
    requires id in running && id in t.entries && t.entries[id].status == Running && t.entries[id].attempts >= 1
    requires from <= reading <= until
    requires !Terminal(Next(t, Finishing(handlers, t, id, clock(reading))).entries[id].status) ==> reading < until
    ensures var u := Next(t, Finishing(handlers, t, id, clock(reading)));
      RetriesTimed(u, begun, running - {id}, WithSettled(settled, id, u.entries[id]), clock, from, until)
  {
    var u := Next(t, Finishing(handlers, t, id, clock(reading)));
    forall other | other in begun && other !in running - {id} && other !in WithSettled(settled, id, u.entries[id])
      ensures PutBack(u, other, clock, from, until)
    {
      if other == id {
        assert u.entries[id] == Requeued(t.entries[id], clock(reading));
      } else {
        assert PutBack(t, other, clock, from, reading) && u.entries[other] == t.entries[other];
      }
    }
  }

  // A whole drain.

  /** One turn of the loop: at reading number `reading` of the clock a batch is picked from `before` and run. */
  datatype Pass = Pass(before: State, reading: nat, batch: seq<Id>, after: State)

  /** The batch was due, and first in the order, at that reading; jobs it put back failed at readings before `until`. */
  ghost predicate IsPass(p: Pass, slots: nat, clock: Clock, until: nat) {
    && p.batch != [] && IsBatch(p.before, clock(p.reading), slots, p.batch)
    && p.after.started == p.before.started + p.batch
    && forall id :: id in p.batch && id in p.after.queue ==> PutBack(p.after, id, clock, p.reading + 1, until)
  }

  /** The job waits for a retry, counted from a failure at one of the given readings. */
  ghost predicate PutBack(t: State, id: Id, clock: Clock, from: nat, until: nat) {
    && id in t.entries && t.entries[id].status == Queued && t.entries[id].lastFailure.Some?
    && exists reading: nat :: from <= reading < until && t.entries[id].lastFailure.value == clock(reading)
  }

  /** The turns follow one another from `s` to `t`, each at a later reading than the one before, from `from` to before `until`. */
  ghost predicate PassesLead(s: State, passes: seq<Pass>, t: State, slots: nat, clock: Clock, from: nat, until: nat) {
    if passes == [] then s == t
    else
      var last := passes[|passes| - 1];
      last.after == t && from <= last.reading < until && IsPass(last, slots, clock, until)
      && PassesLead(s, passes[..|passes| - 1], last.before, slots, clock, from, last.reading)
  }

  /** `completed` names, once each, the jobs that became terminal between `s` and `t`, as their handlers decided. */
  ghost predicate Completes(s: State, t: State, completed: seq<Id>, handlers: Handlers) {
    && Distinct(completed)
    && s.finished.Keys <= t.finished.Keys && Elements(completed) == t.finished.Keys - s.finished.Keys
    && forall id :: id in completed ==> Ended(t, id, handlers)
  }

  ghost predicate Ended(t: State, id: Id, handlers: Handlers) {
    && id in t.entries && id in t.finished && t.finished[id] == t.entries[id] && Terminal(t.entries[id].status)
    && (t.entries[id].status == Succeeded <==> handlers(id, t.entries[id].attempts))
  }

  /** A drain that began in `s` at reading `from` has come to `t`, by turns made at readings before `until`. */
  ghost predicate Drained(s: State, passes: seq<Pass>, t: State, completed: seq<Id>, slots: nat, handlers: Handlers,
                          clock: Clock, from: nat, until: nat) {
    Invariant(t) && PassesLead(s, passes, t, slots, clock, from, until) && Completes(s, t, completed, handlers)
  }

  lemma DrainStarts(s: State, slots: nat, handlers: Handlers, clock: Clock, from: nat)
    requires Invariant(s)
    ensures Drained(s, [], s, [], slots, handlers, clock, from, from)
  {
  }

  lemma EndedStays(s: State, t: State, batch: seq<Id>, settled: Settling, handlers: Handlers, id: Id)
    requires Invariant(s) && MidBatch(s, t, batch, {}, settled, handlers) && Ended(s, id, handlers)
    ensures Ended(t, id, handlers)
  {
    assert Placed(s, id);
    assert id !in batch;
    assert Placed(t, id);
  }

  lemma SettledEnded(s: State, t: State, batch: seq<Id>, settled: Settling, handlers: Handlers, id: Id)
    requires Invariant(s) && MidBatch(s, t, batch, {}, settled, handlers) && id in settled
    ensures Ended(t, id, handlers)
  {
    assert id in t.entries;
    assert Placed(t, id);
  }

  lemma DistinctConcat(a: seq<Id>, b: seq<Id>)
    requires Distinct(a) && Distinct(b) && forall x :: x in b ==> x !in a
    ensures Distinct(a + b)
  {
    forall i, j | 0 <= i < j < |a + b|
      ensures (a + b)[i] != (a + b)[j]
    {
      assert j >= |a| ==> (a + b)[j] in b;
    }
  }

  lemma BatchIsPass(p: Pass, slots: nat, settled: Settling, handlers: Handlers, clock: Clock, until: nat)
    requires p.batch != [] && IsBatch(p.before, clock(p.reading), slots, p.batch)
    requires MidBatch(p.before, p.after, p.batch, {}, settled, handlers)
    requires RetriesTimed(p.after, p.batch, {}, settled, clock, p.reading + 1, until)
    ensures IsPass(p, slots, clock, until)
  {
    forall id | id in p.batch && id in p.after.queue
      ensures PutBack(p.after, id, clock, p.reading + 1, until)
    {
      assert id in settled ==> id in p.after.finished && Placed(p.after, id);
    }
  }

  lemma PassesFurther(s: State, passes: seq<Pass>, pass: Pass, slots: nat, clock: Clock, from: nat, until: nat)
    requires from <= pass.reading < until && PassesLead(s, passes, pass.before, slots, clock, from, pass.reading)
    requires IsPass(pass, slots, clock, until)
    ensures PassesLead(s, passes + [pass], pass.after, slots, clock, from, until)
  {
    assert (passes + [pass])[..|passes|] == passes;
  }

  lemma CompletesFurther(s: State, t: State, u: State, completed: seq<Id>, batch: seq<Id>, settled: Settling, terminal: seq<Id>, handlers: Handlers)
    requires Invariant(t) && Completes(s, t, completed, handlers) && MidBatch(t, u, batch, {}, settled, handlers)
    requires Distinct(terminal) && Elements(terminal) == settled.Keys
    ensures Completes(s, u, completed + terminal, handlers)
  {
    forall id | id in completed
      ensures Ended(u, id, handlers)
    {
      EndedStays(t, u, batch, settled, handlers, id);
    }
    forall id | id in terminal
      ensures Ended(u, id, handlers) && id !in completed
    {
      assert id in Elements(terminal);
      SettledEnded(t, u, batch, settled, handlers, id);
      assert id in completed <==> id in Elements(completed);
    }
    assert Elements(completed + terminal) == Elements(completed) + Elements(terminal);
    DistinctConcat(completed, terminal);
  }
}
