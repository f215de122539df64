/** Any number of `drain` and `runJob` calls at once, with jobs enqueued and cancelled meanwhile (`brain-scheduler.ts`). */
module DrainSteps {
  import opened Prelude
  import opened JobQueue
  import opened JobDrain

  /**
   One call of `drain`, or of `runJob` if not `drain`: whether it goes on, the jobs whose handlers it awaits,
   and the jobs it has seen reach a terminal status, which it returns in the end.
   */
  datatype Call = Call(drain: bool, open: bool, running: set<Id>, ended: set<Id>)

  datatype Pool = Pool(s: State, calls: seq<Call>)

  /** What may happen between two awaits. `batch` is what `drain` picks at clock reading `now`. */
  datatype Move =
    | Ask(e: Event)
    | RunJob(id: Id)
    | StartDrain(now: int, batch: seq<Id>)
    | Turn(call: nat, now: int, batch: seq<Id>)
    | Finish(call: nat, id: Id, ok: bool, now: int)

  ghost predicate Possible(p: Pool, slots: nat, m: Move) {
    match m
    case Ask(e) => (e.Enqueue? || e.Cancel? || e.ClearCompleted?) && CanHappen(p.s, e)
    case RunJob(_) => true
    case StartDrain(now, batch) => IsBatch(p.s, now, slots, batch)
    case Turn(c, now, batch) => c < |p.calls| && p.calls[c].drain && p.calls[c].open && p.calls[c].running == {} && IsBatch(p.s, now, slots, batch)
    case Finish(c, id, ok, now) => c < |p.calls| && id in p.calls[c].running && CanHappen(p.s, Outcome(id, ok, now))
  }

  function Outcome(id: Id, ok: bool, now: int): Event {
    if ok then Succeed(id) else Fail(id, now)
  }

  /** The handlers of a batch are called in order, before anything else happens. */
  function AllBegun(s: State, batch: seq<Id>): State {
    if batch == [] then s else Next(AllBegun(s, batch[..|batch| - 1]), Begin(batch[|batch| - 1]))
  }

  /** One handler is through; a drain goes on until it finds nothing due. */
  ghost function Through(call: Call, id: Id, status: JobStatus): Call {
    Call(call.drain, call.open && call.drain, call.running - {id}, if Terminal(status) then call.ended + {id} else call.ended)
  }

  ghost function After(p: Pool, slots: nat, m: Move): Pool
    requires Possible(p, slots, m)
  {
    match m
    case Ask(e) => p.(s := Next(p.s, e))
    case RunJob(id) => if CanBegin(p.s, id) then Pool(Next(p.s, Begin(id)), p.calls + [Call(false, true, {id}, {})]) else p
    case StartDrain(_, batch) => Pool(AllBegun(p.s, batch), p.calls + [Call(true, batch != [], Elements(batch), {})])
    case Turn(c, _, batch) =>
      Pool(AllBegun(p.s, batch), p.calls[c := p.calls[c].(open := batch != [], running := Elements(batch))])
    case Finish(c, id, ok, now) =>
      var t := Next(p.s, Outcome(id, ok, now));
      Pool(t, p.calls[c := Through(p.calls[c], id, if id in t.entries then t.entries[id].status else Queued)])
  }

  ghost predicate MoveAt(pools: seq<Pool>, slots: nat, i: nat)
    requires i + 1 < |pools|
  {
    exists m :: Possible(pools[i], slots, m) && pools[i + 1] == After(pools[i], slots, m)
  }

  ghost predicate IsRun(pools: seq<Pool>, slots: nat) {
    && |pools| >= 1 && pools[0] == Pool(InitialState(), [])
    && forall i: nat {:trigger MoveAt(pools, slots, i)} :: i + 1 < |pools| ==> MoveAt(pools, slots, i)
  }

  // What holds in every run.

  predicate Awaits(calls: seq<Call>, c: int, id: Id) {
    0 <= c < |calls| && id in calls[c].running
  }

  predicate Saw(calls: seq<Call>, c: int, id: Id) {
    0 <= c < |calls| && id in calls[c].ended
  }

  predicate IsRunning(s: State, id: Id) {
    id in s.entries && s.entries[id].status == Running
  }

  predicate IsTerminal(s: State, id: Id) {
    id in s.entries && Terminal(s.entries[id].status)
  }

  /** How many handlers the call may await at a time. */
  function Room(call: Call, slots: nat): nat {
    if !call.open then 0 else if call.drain then slots else 1
  }

  /** Each running job is awaited by one call, and each terminal one was seen by one. */
  ghost predicate Accounted(p: Pool) {
    && (forall id :: IsRunning(p.s, id) <==> exists c :: Awaits(p.calls, c, id))
    && (forall c, d, id :: Awaits(p.calls, c, id) && Awaits(p.calls, d, id) ==> c == d)
    && (forall id :: IsTerminal(p.s, id) <==> exists c :: Saw(p.calls, c, id))
    && forall c, d, id :: Saw(p.calls, c, id) && Saw(p.calls, d, id) ==> c == d
  }

  ghost predicate Sound(p: Pool, slots: nat) {
    && Invariant(p.s) && Accounted(p)
    && forall call :: call in p.calls ==> |call.running| <= Room(call, slots)
  }

  lemma {:induction false} AllBegunIs(s: State, batch: seq<Id>)
    requires Invariant(s) && Distinct(batch) && forall id :: id in batch ==> CanBegin(s, id)
    ensures var t := AllBegun(s, batch);
      && Invariant(t) && t.entries.Keys == s.entries.Keys && t.queue == s.queue
      && forall id :: id in s.entries ==> t.entries[id] == if id in batch then Begun(s.entries[id]) else s.entries[id]
  {
    if batch == [] {
    } else {
      var front, last := batch[..|batch| - 1], batch[|batch| - 1];
      assert batch == front + [last] && last !in front;
      AllBegunIs(s, front);
      NextKeeps(AllBegun(s, front), Begin(last));
    }
  }

  lemma CallJoins(p: Pool, slots: nat, t: State, call: Call)
    requires Sound(p, slots) && Invariant(t) && call.ended == {} && |call.running| <= Room(call, slots)
    requires forall id :: IsRunning(t, id) <==> IsRunning(p.s, id) || id in call.running
    requires forall id :: id in call.running ==> !IsRunning(p.s, id)
    requires forall id :: IsTerminal(t, id) <==> IsTerminal(p.s, id)
    ensures Sound(Pool(t, p.calls + [call]), slots)
  {
    var calls := p.calls + [call];
    forall c, id
      ensures Awaits(calls, c, id) <==> Awaits(p.calls, c, id) || (c == |p.calls| && id in call.running)
      ensures Saw(calls, c, id) <==> Saw(p.calls, c, id)
    {
    }
    forall id
      ensures IsRunning(t, id) <==> exists c :: Awaits(calls, c, id)
    {
      if id in call.running { assert Awaits(calls, |p.calls|, id); }
      if c :| Awaits(p.calls, c, id) { assert Awaits(calls, c, id); }
    }
    forall id
      ensures IsTerminal(t, id) <==> exists c :: Saw(calls, c, id)
    {
      if c :| Saw(p.calls, c, id) { assert Saw(calls, c, id); }
    }
  }

  lemma CallChanges(p: Pool, slots: nat, t: State, c: nat, call: Call)
    requires Sound(p, slots) && Invariant(t) && c < |p.calls| && |call.running| <= Room(call, slots)
    requires forall id :: IsRunning(t, id) <==> (IsRunning(p.s, id) && id !in p.calls[c].running) || id in call.running
    requires forall id :: id in call.running && id !in p.calls[c].running ==> !IsRunning(p.s, id)
    requires p.calls[c].ended <= call.ended
    requires forall id :: IsTerminal(t, id) <==> IsTerminal(p.s, id) || id in call.ended
    requires forall id :: id in call.ended && id !in p.calls[c].ended ==> !IsTerminal(p.s, id)
    ensures Sound(Pool(t, p.calls[c := call]), slots)
  {
    AwaitedStill(p, t, c, call);
    SeenStill(p, t, c, call);
  }

  lemma AwaitedStill(p: Pool, t: State, c: nat, call: Call)
    requires Accounted(p) && c < |p.calls|
    requires forall id :: IsRunning(t, id) <==> (IsRunning(p.s, id) && id !in p.calls[c].running) || id in call.running
    requires forall id :: id in call.running && id !in p.calls[c].running ==> !IsRunning(p.s, id)
    ensures var calls := p.calls[c := call];
      && (forall id :: IsRunning(t, id) <==> exists d :: Awaits(calls, d, id))
      && forall d, e, id :: Awaits(calls, d, id) && Awaits(calls, e, id) ==> d == e
  {
    var calls := p.calls[c := call];
    forall d, id
      ensures Awaits(calls, d, id) <==> if d == c then id in call.running else Awaits(p.calls, d, id)
    {
    }
    forall id
      ensures IsRunning(t, id) <==> exists d :: Awaits(calls, d, id)
    {
      if id in call.running { assert Awaits(calls, c, id); }
      if d :| Awaits(p.calls, d, id) {
        assert d != c ==> Awaits(calls, d, id);
        assert id in p.calls[c].running ==> Awaits(p.calls, c, id);
      }
    }
    forall d, e, id | Awaits(calls, d, id) && Awaits(calls, e, id)
      ensures d == e
    {
      assert id in p.calls[c].running ==> Awaits(p.calls, c, id);
    }
  }

  lemma SeenStill(p: Pool, t: State, c: nat, call: Call)
    requires Accounted(p) && c < |p.calls| && p.calls[c].ended <= call.ended
    requires forall id :: IsTerminal(t, id) <==> IsTerminal(p.s, id) || id in call.ended
    requires forall id :: id in call.ended && id !in p.calls[c].ended ==> !IsTerminal(p.s, id)
    ensures var calls := p.calls[c := call];
      && (forall id :: IsTerminal(t, id) <==> exists d :: Saw(calls, d, id))
      && forall d, e, id :: Saw(calls, d, id) && Saw(calls, e, id) ==> d == e
  {
    var calls := p.calls[c := call];
    forall d, id
      ensures Saw(calls, d, id) <==> if d == c then id in call.ended else Saw(p.calls, d, id)
    {
    }
    forall id
      ensures IsTerminal(t, id) <==> exists d :: Saw(calls, d, id)
    {
      if id in call.ended { assert Saw(calls, c, id); }
      if d :| Saw(p.calls, d, id) { assert Saw(calls, d, id); }
    }
    forall d, e, id | Saw(calls, d, id) && Saw(calls, e, id)
      ensures d == e
    {
      assert id in p.calls[c].ended ==> Saw(p.calls, c, id);
    }
  }

  lemma AskSound(p: Pool, slots: nat, e: Event)
    requires Sound(p, slots) && Possible(p, slots, Ask(e))
    ensures Sound(After(p, slots, Ask(e)), slots)
  {
    var t := Next(p.s, e);
    NextKeeps(p.s, e);
    assert forall id :: IsRunning(t, id) <==> IsRunning(p.s, id);
    assert forall id :: IsTerminal(t, id) <==> IsTerminal(p.s, id);
  }

  /** What starting a batch does to the jobs. */
  lemma BatchBegins(s: State, slots: nat, now: int, batch: seq<Id>)
    requires Invariant(s) && IsBatch(s, now, slots, batch)
    ensures Invariant(AllBegun(s, batch)) && |Elements(batch)| <= slots
    ensures forall id :: IsRunning(AllBegun(s, batch), id) <==> IsRunning(s, id) || id in batch
    ensures forall id :: IsTerminal(AllBegun(s, batch), id) <==> IsTerminal(s, id)
    ensures forall id :: id in batch ==> !IsRunning(s, id)
  {
    DistinctSize(batch);
    assert forall id :: id in batch ==> Due(s, id, now);
    AllBegunIs(s, batch);
  }

  /** What the end of a run does to the jobs. */
  lemma FinishEnds(s: State, id: Id, ok: bool, now: int)
    requires CanHappen(s, Outcome(id, ok, now))
    ensures var t := Next(s, Outcome(id, ok, now));
      && id in t.entries && !IsRunning(t, id) && (forall x :: x != id ==> (IsRunning(t, x) <==> IsRunning(s, x)))
      && !IsTerminal(s, id) && forall x :: x != id ==> (IsTerminal(t, x) <==> IsTerminal(s, x))
  {
  }

  lemma FinishSound(p: Pool, slots: nat, c: nat, id: Id, ok: bool, now: int)
    requires Sound(p, slots) && Possible(p, slots, Finish(c, id, ok, now))
    ensures Sound(After(p, slots, Finish(c, id, ok, now)), slots)
  {
    var t := Next(p.s, Outcome(id, ok, now));
    NextKeeps(p.s, Outcome(id, ok, now));
    FinishEnds(p.s, id, ok, now);
    OneThrough(p, slots, t, c, id);
  }

  lemma OneThrough(p: Pool, slots: nat, t: State, c: nat, id: Id)
    requires Sound(p, slots) && Invariant(t) && c < |p.calls| && id in p.calls[c].running
    requires id in t.entries && !IsRunning(t, id) && forall x :: x != id ==> (IsRunning(t, x) <==> IsRunning(p.s, x))
    requires !IsTerminal(p.s, id) && forall x :: x != id ==> (IsTerminal(t, x) <==> IsTerminal(p.s, x))
    ensures Sound(Pool(t, p.calls[c := Through(p.calls[c], id, t.entries[id].status)]), slots)
  {
    var call := Through(p.calls[c], id, t.entries[id].status);
    assert p.calls[c] in p.calls;
    assert call.running + {id} == p.calls[c].running && |call.running| + 1 == |p.calls[c].running|;
    forall x
      ensures x in p.calls[c].running ==> IsRunning(p.s, x)
    {
      assert x in p.calls[c].running ==> Awaits(p.calls, c, x);
    }
    SeenAreTerminal(p, c);
    CallChanges(p, slots, t, c, call);
  }

  lemma MoveSound(p: Pool, slots: nat, m: Move)
    requires Sound(p, slots) && Possible(p, slots, m)
    ensures Sound(After(p, slots, m), slots)
  {
    match m
    case Ask(e) => AskSound(p, slots, e);
    case RunJob(id) =>
      if CanBegin(p.s, id) {
        NextKeeps(p.s, Begin(id));
        CallJoins(p, slots, Next(p.s, Begin(id)), Call(false, true, {id}, {}));
      }
    case StartDrain(now, batch) =>
      BatchBegins(p.s, slots, now, batch);
      CallJoins(p, slots, AllBegun(p.s, batch), Call(true, batch != [], Elements(batch), {}));
    case Turn(c, now, batch) =>
      BatchBegins(p.s, slots, now, batch);
      SeenAreTerminal(p, c);
      CallChanges(p, slots, AllBegun(p.s, batch), c, p.calls[c].(open := batch != [], running := Elements(batch)));
    case Finish(c, id, ok, now) => FinishSound(p, slots, c, id, ok, now);
  }

  lemma SeenAreTerminal(p: Pool, c: nat)
    requires Accounted(p) && c < |p.calls|
    ensures forall id :: id in p.calls[c].ended ==> IsTerminal(p.s, id)
  {
    forall id | id in p.calls[c].ended
      ensures IsTerminal(p.s, id)
    {
      assert Saw(p.calls, c, id);
    }
  }

  lemma MoveOf(pools: seq<Pool>, slots: nat, i: nat) returns (m: Move)
    requires IsRun(pools, slots) && i + 1 < |pools|
    ensures Possible(pools[i], slots, m) && pools[i + 1] == After(pools[i], slots, m)
  {
    assert MoveAt(pools, slots, i);
    m :| Possible(pools[i], slots, m) && pools[i + 1] == After(pools[i], slots, m);
  }

  lemma {:induction false} RunsSound(pools: seq<Pool>, slots: nat, n: nat)
    requires IsRun(pools, slots) && n < |pools|
    ensures Sound(pools[n], slots)
  {
    if n == 0 {
    } else {
      RunsSound(pools, slots, n - 1);
      var m := MoveOf(pools, slots, n - 1);
      MoveSound(pools[n - 1], slots, m);
    }
  }

  // The number of running jobs.

  function RunningJobs(s: State): set<Id> {
    set id | id in s.entries && s.entries[id].status == Running
  }

  /** How many handlers the calls may await in all. */
  function Allowance(calls: seq<Call>, slots: nat): nat {
    if calls == [] then 0 else Allowance(calls[..|calls| - 1], slots) + Room(calls[|calls| - 1], slots)
  }

  ghost function AllAwaited(calls: seq<Call>): set<Id> {
    if calls == [] then {} else AllAwaited(calls[..|calls| - 1]) + calls[|calls| - 1].running
  }

  lemma {:induction false} AwaitedWithin(calls: seq<Call>, slots: nat)
    requires forall call :: call in calls ==> |call.running| <= Room(call, slots)
    ensures |AllAwaited(calls)| <= Allowance(calls, slots)
    ensures forall c, id :: Awaits(calls, c, id) ==> id in AllAwaited(calls)
  {
    if calls == [] {
    } else {
      var front, last := calls[..|calls| - 1], calls[|calls| - 1];
      AwaitedWithin(front, slots);
      UnionSize(AllAwaited(front), last.running);
      forall c, id | Awaits(calls, c, id)
        ensures id in AllAwaited(calls)
      {
        assert c < |front| ==> Awaits(front, c, id);
      }
    }
  }

  lemma UnionSize(a: set<Id>, b: set<Id>)
    ensures |a + b| <= |a| + |b|
  {
    assert a + b == a + (b - a);
    SubsetSize(b - a, b);
  }

  /** In every run, no more jobs run at once than the open calls have slots for, each `drain` its own. */
  lemma {:induction false} RunningBounded(pools: seq<Pool>, slots: nat, n: nat)
    requires IsRun(pools, slots) && n < |pools|
    ensures |RunningJobs(pools[n].s)| <= Allowance(pools[n].calls, slots)
  {
    RunsSound(pools, slots, n);
    var p := pools[n];
    AwaitedWithin(p.calls, slots);
    forall id | id in RunningJobs(p.s)
      ensures id in AllAwaited(p.calls)
    {
      assert IsRunning(p.s, id);
      var c :| Awaits(p.calls, c, id);
    }
    SubsetSize(RunningJobs(p.s), AllAwaited(p.calls));
  }

  ghost predicate OneOpen(calls: seq<Call>) {
    forall c, d :: 0 <= c < |calls| && 0 <= d < |calls| && calls[c].open && calls[d].open ==> c == d
  }

  lemma {:induction false} OneOpenAllowance(calls: seq<Call>, slots: nat)
    requires OneOpen(calls) && slots >= 1
    ensures Allowance(calls, slots) <= slots
    ensures (forall c :: 0 <= c < |calls| ==> !calls[c].open) ==> Allowance(calls, slots) == 0
  {
    if calls == [] {
    } else {
      OneOpenAllowance(calls[..|calls| - 1], slots);
    }
  }

  /** Called one at a time, `drain` and `runJob` never run more jobs at once than the scheduler has slots. */
  lemma {:induction false} OneAtATimeHonours(pools: seq<Pool>, slots: nat, n: nat)
    requires IsRun(pools, slots) && n < |pools| && slots >= 1 && OneOpen(pools[n].calls)
    ensures |RunningJobs(pools[n].s)| <= slots
  {
    RunningBounded(pools, slots, n);
    OneOpenAllowance(pools[n].calls, slots);
  }

  /** The jobs whose handlers a move calls. */
  ghost function Starting(p: Pool, m: Move): set<Id> {
    match m
    case RunJob(id) => if CanBegin(p.s, id) then {id} else {}
    case StartDrain(_, batch) => Elements(batch)
    case Turn(_, _, batch) => Elements(batch)
    case _ => {}
  }

  lemma StartingAdds(p: Pool, slots: nat, m: Move)
    requires Sound(p, slots) && Possible(p, slots, m) && !m.Finish?
    ensures Starting(p, m) !! RunningJobs(p.s) && RunningJobs(After(p, slots, m).s) == RunningJobs(p.s) + Starting(p, m)
  {
    match m
    case StartDrain(now, batch) =>
      BatchBegins(p.s, slots, now, batch);
      RunningPlus(p.s, AllBegun(p.s, batch), Elements(batch));
    case Turn(c, now, batch) =>
      BatchBegins(p.s, slots, now, batch);
      RunningPlus(p.s, AllBegun(p.s, batch), Elements(batch));
    case RunJob(id) => RunningPlus(p.s, After(p, slots, m).s, Starting(p, m));
    case Ask(e) => RunningPlus(p.s, Next(p.s, e), {});
    case Finish(_, _, _, _) =>
  }

  lemma RunningPlus(s: State, t: State, more: set<Id>)
    requires forall id :: IsRunning(t, id) <==> IsRunning(s, id) || id in more
    requires forall id :: id in more ==> !IsRunning(s, id)
    ensures more !! RunningJobs(s) && RunningJobs(t) == RunningJobs(s) + more
  {
    assert forall id :: id in RunningJobs(s) <==> IsRunning(s, id);
    assert forall id :: id in RunningJobs(t) <==> IsRunning(t, id);
  }

  /** A move exceeds the limit exactly if the jobs it starts do not fit beside those already running. */
  lemma {:induction false} MoveExceedsIff(p: Pool, slots: nat, m: Move)
    requires Sound(p, slots) && Possible(p, slots, m) && |RunningJobs(p.s)| <= slots
    ensures |RunningJobs(After(p, slots, m).s)| > slots <==> |RunningJobs(p.s)| + |Starting(p, m)| > slots
  {
    if m.Finish? {
      FinishEnds(p.s, m.id, m.ok, m.now);
      var t := Next(p.s, Outcome(m.id, m.ok, m.now));
      assert forall x :: x in RunningJobs(t) ==> IsRunning(t, x) && IsRunning(p.s, x);
      SubsetSize(RunningJobs(t), RunningJobs(p.s));
    } else {
      StartingAdds(p, slots, m);
    }
  }

  // What `drain` returns.

  /** How a job comes out of its handler: done, waiting for another attempt from now on, or given up. */
  lemma FinishSettles(p: Pool, slots: nat, c: nat, id: Id, ok: bool, now: int)
    requires Possible(p, slots, Finish(c, id, ok, now))
    ensures var job, after := p.s.entries[id], After(p, slots, Finish(c, id, ok, now)).s.entries[id];
      && after.attempts == job.attempts && (after.status == Succeeded <==> ok)
      && (!ok && job.attempts < job.maxAttempts ==> after.status == Queued && after.lastFailure == Some(now))
      && (!ok && job.attempts >= job.maxAttempts ==> after.status == if job.maxAttempts > 1 then Dead else Failed)
  {
  }

  /** A drain ends exactly when nothing is due at the reading it makes then. */
  lemma {:induction false} DrainEndsIff(p: Pool, slots: nat, c: nat, now: int, batch: seq<Id>)
    requires Possible(p, slots, Turn(c, now, batch)) && slots >= 1
    ensures !After(p, slots, Turn(c, now, batch)).calls[c].open <==> NothingDue(p.s, now)
  {
    if batch != [] { assert batch[0] in batch && Due(p.s, batch[0], now); }
  }

  lemma TerminalStays(p: Pool, slots: nat, m: Move, id: Id)
    requires Sound(p, slots) && Possible(p, slots, m) && IsTerminal(p.s, id)
    ensures var t := After(p, slots, m).s; id in t.entries && t.entries[id] == p.s.entries[id]
  {
    if m.StartDrain? || m.Turn? {
      assert forall x :: x in m.batch ==> Due(p.s, x, m.now);
      AllBegunIs(p.s, m.batch);
    }
  }

  lemma {:induction false} SawForever(pools: seq<Pool>, slots: nat, i: nat, j: nat, c: nat, id: Id)
    requires IsRun(pools, slots) && i <= j < |pools| && IsTerminal(pools[i].s, id) && Saw(pools[i].calls, c, id)
    ensures Saw(pools[j].calls, c, id)
    ensures id in pools[j].s.entries && pools[j].s.entries[id] == pools[i].s.entries[id]
  {
    if i < j {
      SawForever(pools, slots, i, j - 1, c, id);
      RunsSound(pools, slots, j - 1);
      var m := MoveOf(pools, slots, j - 1);
      TerminalStays(pools[j - 1], slots, m, id);
      SawStays(pools[j - 1], slots, m, c, id);
    }
  }

  /** A job that reached a terminal status keeps it, and exactly one call has it among those it returns. */
  lemma {:induction false} TerminalReturnedOnce(pools: seq<Pool>, slots: nat, i: nat, j: nat, id: Id) returns (c: nat)
    requires IsRun(pools, slots) && i <= j < |pools| && IsTerminal(pools[i].s, id)
    ensures c < |pools[i].calls|
    ensures forall d :: Saw(pools[j].calls, d, id) <==> d == c
    ensures id in pools[j].s.entries && pools[j].s.entries[id] == pools[i].s.entries[id]
  {
    RunsSound(pools, slots, i);
    var d :| Saw(pools[i].calls, d, id);
    c := d;
    SawForever(pools, slots, i, j, c, id);
    RunsSound(pools, slots, j);
  }

  lemma SawStays(p: Pool, slots: nat, m: Move, c: nat, id: Id)
    requires Possible(p, slots, m) && Saw(p.calls, c, id)
    ensures Saw(After(p, slots, m).calls, c, id) && |p.calls| <= |After(p, slots, m).calls|
  {
  }

  // Two drains at once.

  function Waiting(): Job {
    Job(0, 0, 0, 1, 100, Queued, None)
  }

  function TwoWaiting(): State {
    State(map["a" := Waiting(), "b" := Waiting()], ["a", "b"], map[], [], {})
  }

  function OneStarted(): State {
    State(map["a" := Begun(Waiting()), "b" := Waiting()], ["a", "b"], map[], ["a"], {})
  }

  lemma RunExtends(pools: seq<Pool>, slots: nat, m: Move)
    requires IsRun(pools, slots) && Possible(pools[|pools| - 1], slots, m)
    ensures IsRun(pools + [After(pools[|pools| - 1], slots, m)], slots)
  {
    var longer := pools + [After(pools[|pools| - 1], slots, m)];
    forall i: nat | i + 1 < |longer|
      ensures MoveAt(longer, slots, i)
    {
      if i + 1 < |pools| {
        var e := MoveOf(pools, slots, i);
        assert longer[i + 1] == After(longer[i], slots, e);
      } else {
        assert longer[i + 1] == After(longer[i], slots, m);
      }
    }
  }

  function Plain(): Options {
    Options("job", 0, 0, 1, 100)
  }

  function OneWaiting(): State {
    State(map["a" := Waiting()], ["a"], map[], [], {})
  }

  lemma PlainValid()
    ensures ValidOptions(Plain())
  {
    assert 'j' in Plain().name && !IsSpace('j');
  }

  lemma FirstEnqueued()
    ensures ValidOptions(Plain()) && Next(InitialState(), Enqueue("a", Plain(), 0)) == OneWaiting()
  {
    PlainValid();
  }

  lemma SecondEnqueued()
    ensures ValidOptions(Plain()) && Next(OneWaiting(), Enqueue("b", Plain(), 0)) == TwoWaiting()
  {
    PlainValid();
  }

  lemma TwoEnqueued() returns (pools: seq<Pool>)
    ensures IsRun(pools, 1) && pools[|pools| - 1] == Pool(TwoWaiting(), [])
  {
    FirstEnqueued();
    SecondEnqueued();
    pools := [Pool(InitialState(), [])];
    RunExtends(pools, 1, Ask(Enqueue("a", Plain(), 0)));
    pools := pools + [Pool(OneWaiting(), [])];
    RunExtends(pools, 1, Ask(Enqueue("b", Plain(), 0)));
    pools := pools + [Pool(TwoWaiting(), [])];
  }

  lemma FirstBatch()
    ensures IsBatch(TwoWaiting(), 0, 1, ["a"]) && AllBegun(TwoWaiting(), ["a"]) == OneStarted()
  {
    assert ["a"][..0] == [];
    assert AllBegun(TwoWaiting(), []) == TwoWaiting();
    assert Next(TwoWaiting(), Begin("a")).entries == OneStarted().entries;
  }

  lemma SecondBatch()
    ensures IsBatch(OneStarted(), 0, 1, ["b"]) && RunningJobs(AllBegun(OneStarted(), ["b"])) == {"a", "b"}
  {
    assert ["b"][..0] == [];
    assert AllBegun(OneStarted(), []) == OneStarted();
  }

  /** One slot, two jobs due, two drains: both jobs run at once. */
  lemma {:induction false} DrainsOverrun() returns (pools: seq<Pool>)
    ensures IsRun(pools, 1) && |RunningJobs(pools[|pools| - 1].s)| == 2
  {
    pools := TwoEnqueued();
    FirstBatch();
    var first := StartDrain(0, ["a"]);
    RunExtends(pools, 1, first);
    pools := pools + [After(pools[|pools| - 1], 1, first)];
    SecondBatch();
    var second := StartDrain(0, ["b"]);
    RunExtends(pools, 1, second);
    pools := pools + [After(pools[|pools| - 1], 1, second)];
  }
}
