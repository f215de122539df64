/** Concurrent use of the store: every interleaving behaves like its bodies run one after another. */
module StoreRuns {
  import opened Prelude
  import opened KeyValueStore
  import opened Mutex = AsyncMutex

  /** What a caller hands to `runExclusive`: one operation, or a transaction that performs any number of them. */
  datatype Body = Single(op: Operation) | Transaction

  /** One operation performed, by which call, and with what outcome. */
  datatype Record = Record(call: nat, op: Operation, outcome: Outcome)

  datatype State = State(lock: Lock, bodies: seq<Body>, values: Values, log: seq<Record>)

  datatype StoreEvent =
    | Submit(body: Body)
    | EnterBody(k: nat)                    // a single operation is performed on entry
    | InTransaction(k: nat, op: Operation) // a transaction inside performs one more operation
    | LeaveBody(k: nat)
    | PropagateTail(k: nat)

  function InitialState(): State {
    State(Mutex.Initial(), [], map[], [])
  }

  predicate CanHappen(s: State, e: StoreEvent)
    requires WellFormed(s.lock) && |s.bodies| == |s.lock.calls|
  {
    match e
    case Submit(_) => true
    case EnterBody(k) => Enabled(s.lock, Enter(k))
    case InTransaction(k, _) => k < |s.bodies| && s.bodies[k].Transaction? && s.lock.calls[k] == Inside
    case LeaveBody(k) => Enabled(s.lock, Leave(k))
    case PropagateTail(k) => Enabled(s.lock, Propagate(k))
  }

  function Performed(s: State, k: nat, op: Operation): State {
    var (values, outcome) := Do(s.values, op);
    s.(values := values, log := s.log + [Record(k, op, outcome)])
  }

  function Step(s: State, e: StoreEvent): State
    requires WellFormed(s.lock) && |s.bodies| == |s.lock.calls| && CanHappen(s, e)
  {
    match e
    case Submit(body) => s.(lock := Next(s.lock, Call), bodies := s.bodies + [body])
    case EnterBody(k) =>
      var entered := s.(lock := Next(s.lock, Enter(k)));
      if s.bodies[k].Single? then Performed(entered, k, s.bodies[k].op) else entered
    case InTransaction(k, op) => Performed(s, k, op)
    case LeaveBody(k) => s.(lock := Next(s.lock, Leave(k)))
    case PropagateTail(k) => s.(lock := Next(s.lock, Propagate(k)))
  }

  /** The store after performing the logged operations one after another. */
  function Replay(log: seq<Record>): Values {
    if log == [] then map[] else Do(Replay(log[..|log| - 1]), log[|log| - 1].op).0
  }

  predicate OutcomeMatches(log: seq<Record>, i: nat)
    requires i < |log|
  {
    log[i].outcome == Do(Replay(log[..i]), log[i].op).1
  }

  /** Every outcome is the one the operation has when the logged operations run one after another. */
  ghost predicate OutcomesSequential(log: seq<Record>) {
    forall i {:trigger OutcomeMatches(log, i)} :: 0 <= i < |log| ==> OutcomeMatches(log, i)
  }

  /** Operations of different calls never interleave, and calls come in the order they were made. */
  ghost predicate CallsInOrder(log: seq<Record>) {
    forall i, j :: 0 <= i < j < |log| ==> log[i].call <= log[j].call
  }

  ghost predicate Linearized(s: State) {
    && Mutex.Invariant(s.lock) && |s.bodies| == |s.lock.calls|
    && s.values == Replay(s.log)
    && OutcomesSequential(s.log) && CallsInOrder(s.log)
    && forall i :: 0 <= i < |s.log| ==> s.log[i].call < |s.lock.entered|
  }

  lemma ReplayAppend(log: seq<Record>, r: Record)
    ensures Replay(log + [r]) == Do(Replay(log), r.op).0
  {
    assert (log + [r])[..|log|] == log;
  }

  /** An operation performed now has the outcome it has at the end of the log, and changes no earlier one. */
  lemma OutcomesAppend(log: seq<Record>, r: Record)
    requires OutcomesSequential(log) && r.outcome == Do(Replay(log), r.op).1
    ensures OutcomesSequential(log + [r])
  {
    forall i | 0 <= i < |log + [r]|
      ensures OutcomeMatches(log + [r], i)
    {
      assert (log + [r])[..i] == log[..i];
      assert i < |log| ==> OutcomeMatches(log, i);
    }
  }

  lemma CallsAppend(log: seq<Record>, r: Record)
    requires CallsInOrder(log) && forall i :: 0 <= i < |log| ==> log[i].call <= r.call
    ensures CallsInOrder(log + [r])
  {
  }

  lemma PerformLast(s: State, k: nat, op: Operation)
    requires Linearized(s) && k + 1 == |s.lock.entered|
    ensures Linearized(Performed(s, k, op))
  {
    var r := Record(k, op, Do(s.values, op).1);
    ReplayAppend(s.log, r);
    OutcomesAppend(s.log, r);
    CallsAppend(s.log, r);
  }

  /** Only the latest call to have entered can be inside. */
  lemma InsideIsLatest(l: Lock, k: nat)
    requires Mutex.Invariant(l) && k < |l.calls| && l.calls[k] == Inside
    ensures k + 1 == |l.entered|
  {
    assert forall j :: k < j < |l.calls| ==> !l.tails[j] && l.calls[j] == Waiting;
    var next := k + 1;
    assert next < |l.calls| ==> l.calls[next] == Waiting;
  }

  lemma StepKeeps(s: State, e: StoreEvent)
    requires Linearized(s) && CanHappen(s, e)
    ensures Linearized(Step(s, e))
  {
    match e {
      case Submit(_) => NextKeeps(s.lock, Call);
      case EnterBody(k) =>
        NextKeeps(s.lock, Enter(k));
        InsideIsLatest(Next(s.lock, Enter(k)), k);
        if s.bodies[k].Single? {
          PerformLast(s.(lock := Next(s.lock, Enter(k))), k, s.bodies[k].op);
        }
      case InTransaction(k, op) =>
        InsideIsLatest(s.lock, k);
        PerformLast(s, k, op);
      case LeaveBody(k) => NextKeeps(s.lock, Leave(k));
      case PropagateTail(k) => NextKeeps(s.lock, Propagate(k));
    }
  }

  ghost predicate StepsTo(s: State, t: State) {
    WellFormed(s.lock) && |s.bodies| == |s.lock.calls| && exists e :: CanHappen(s, e) && t == Step(s, e)
  }

  ghost predicate IsHistory(states: seq<State>) {
    && |states| >= 1 && states[0] == InitialState()
    && forall i :: 0 <= i < |states| - 1 ==> StepsTo(states[i], states[i + 1])
  }

  /** Whatever the interleaving, values and outcomes are those of running the bodies one after another in call order. */
  lemma {:induction false} EveryHistoryLinearizes(states: seq<State>, n: nat)
    requires IsHistory(states) && n < |states|
    ensures Linearized(states[n])
  {
    if n == 0 {
    } else {
      EveryHistoryLinearizes(states, n - 1);
      assert StepsTo(states[n - 1], states[n - 1 + 1]);
      var e :| CanHappen(states[n - 1], e) && states[n] == Step(states[n - 1], e);
      StepKeeps(states[n - 1], e);
    }
  }

  // Versions.

  predicate Writes(r: Record, key: Key) {
    r.op.Write? && r.op.key == key && r.outcome.Written?
  }

  predicate Deletes(r: Record, key: Key) {
    r.op.Remove? && r.op.key == key && r.outcome == Removed(true)
  }

  /** Successful writes of a key since it was last created. */
  function WritesSinceCreation(log: seq<Record>, key: Key): nat {
    if log == [] then 0
    else
      var before, r := WritesSinceCreation(log[..|log| - 1], key), log[|log| - 1];
      if Writes(r, key) then before + 1 else if Deletes(r, key) then 0 else before
  }

  lemma PrefixSequential(log: seq<Record>, n: nat)
    requires OutcomesSequential(log) && n <= |log|
    ensures OutcomesSequential(log[..n])
  {
    forall i | 0 <= i < n
      ensures OutcomeMatches(log[..n], i)
    {
      assert OutcomeMatches(log, i) && log[..n][..i] == log[..i];
    }
  }

  /** A key is live exactly when it has been written since its creation, and its version is the number of those writes. */
  lemma {:induction false} VersionCountsWrites(log: seq<Record>, key: Key)
    requires OutcomesSequential(log)
    ensures key in Replay(log) <==> WritesSinceCreation(log, key) > 0
    ensures key in Replay(log) ==> Replay(log)[key].version == WritesSinceCreation(log, key)
  {
    if log == [] {
    } else {
      var last := |log| - 1;
      PrefixSequential(log, last);
      VersionCountsWrites(log[..last], key);
      assert OutcomeMatches(log, last);
    }
  }

  ghost predicate NeverDeleted(log: seq<Record>, key: Key, from: nat, end: nat)
    requires from <= end <= |log|
  {
    forall i :: from <= i < end ==> !Deletes(log[i], key)
  }

  /** Versions of a key that is not deleted in between only grow, and an unchanged version means an unchanged entry. */
  lemma {:induction false} VersionsGrow(log: seq<Record>, key: Key, from: nat, end: nat)
    requires from <= end <= |log|
    requires OutcomesSequential(log) && NeverDeleted(log, key, from, end)
    requires key in Replay(log[..from])
    ensures key in Replay(log[..end])
    ensures Replay(log[..from])[key].version <= Replay(log[..end])[key].version
    ensures Replay(log[..from])[key].version == Replay(log[..end])[key].version ==> Replay(log[..from])[key] == Replay(log[..end])[key]
    ensures (exists i :: from <= i < end && Writes(log[i], key)) ==> Replay(log[..from])[key].version < Replay(log[..end])[key].version
    decreases end - from
  {
    if from == end {
    } else {
      var last := end - 1;
      VersionsGrow(log, key, from, last);
      assert log[..end][..last] == log[..last];
      assert OutcomeMatches(log, last);
    }
  }

  predicate SetsWithVersion(r: Record, key: Key, version: int) {
    Writes(r, key) && r.op.expected == Some(version)
  }

  /** Of all `set` calls with the same expected version on a key that is not deleted, at most one succeeds. */
  lemma {:induction false} CompareAndSetOnce(log: seq<Record>, key: Key, version: int, i: nat, j: nat)
    requires OutcomesSequential(log) && i < |log| && j < |log|
    requires SetsWithVersion(log[i], key, version) && SetsWithVersion(log[j], key, version)
    requires i <= j ==> NeverDeleted(log, key, i, j)
    requires j <= i ==> NeverDeleted(log, key, j, i)
    ensures i == j
  {
    var a, b := if i <= j then i else j, if i <= j then j else i;
    assert OutcomeMatches(log, a);
    assert OutcomeMatches(log, b);
    if a < b {
      VersionsGrow(log, key, a, b);
    }
  }

  /** A successful compare-and-set overwrites the very value its caller read, if the key was not deleted meanwhile. */
  lemma {:induction false} CompareAndSetSeesRead(log: seq<Record>, key: Key, read: nat, wrote: nat)
    requires OutcomesSequential(log) && read <= wrote < |log| && NeverDeleted(log, key, read, wrote)
    requires key in Replay(log[..read]) && SetsWithVersion(log[wrote], key, Replay(log[..read])[key].version)
    ensures key in Replay(log[..wrote]) && Replay(log[..wrote])[key] == Replay(log[..read])[key]
  {
    assert OutcomeMatches(log, wrote);
    VersionsGrow(log, key, read, wrote);
  }

  /** A write that a read, update, compare-and-set loop makes: it read at some earlier moment and applies `update`. */
  ghost predicate RetryLoopWrite(log: seq<Record>, key: Key, update: Value -> Value, base: nat, wrote: nat)
    requires wrote < |log|
  {
    exists read :: base <= read <= wrote && key in Replay(log[..read])
      && SetsWithVersion(log[wrote], key, Replay(log[..read])[key].version)
      && log[wrote].op.value == update(Replay(log[..read])[key].value)
  }

  function Iterate(update: Value -> Value, n: nat, v: Value): Value {
    if n == 0 then v else update(Iterate(update, n - 1, v))
  }

  function CountWrites(log: seq<Record>, key: Key, from: nat, end: nat): nat
    requires from <= end <= |log|
    decreases end - from
  {
    if from == end then 0 else CountWrites(log, key, from, end - 1) + (if Writes(log[end - 1], key) then 1 else 0)
  }

  /** What one logged operation does to one key. */
  lemma StepOnKey(log: seq<Record>, key: Key, n: nat)
    requires OutcomesSequential(log) && n < |log| && !Deletes(log[n], key)
    requires key in Replay(log[..n])
    ensures key in Replay(log[..n + 1])
    ensures Replay(log[..n + 1])[key].value == if Writes(log[n], key) then log[n].op.value else Replay(log[..n])[key].value
  {
    assert log[..n + 1][..n] == log[..n];
    assert OutcomeMatches(log, n);
  }

  lemma RetryWriteApplies(log: seq<Record>, key: Key, update: Value -> Value, base: nat, wrote: nat)
    requires base <= wrote < |log|
    requires OutcomesSequential(log) && NeverDeleted(log, key, base, wrote)
    requires Writes(log[wrote], key) && RetryLoopWrite(log, key, update, base, wrote)
    ensures key in Replay(log[..wrote]) && log[wrote].op.value == update(Replay(log[..wrote])[key].value)
  {
    var read :| base <= read <= wrote && key in Replay(log[..read])
      && SetsWithVersion(log[wrote], key, Replay(log[..read])[key].version)
      && log[wrote].op.value == update(Replay(log[..read])[key].value);
    CompareAndSetSeesRead(log, key, read, wrote);
  }

  ghost predicate OnlyRetryLoopsWrite(log: seq<Record>, key: Key, update: Value -> Value, base: nat, end: nat)
    requires base <= end <= |log|
  {
    forall i :: base <= i < end && Writes(log[i], key) ==> RetryLoopWrite(log, key, update, base, i)
  }

  /** Read/compare-and-set retry loops lose no update: the value is `update` applied once per successful write. */
  lemma {:induction false} NoLostUpdate(log: seq<Record>, key: Key, update: Value -> Value, base: nat, end: nat)
    requires base <= end <= |log|
    requires OutcomesSequential(log) && NeverDeleted(log, key, base, end)
    requires key in Replay(log[..base]) && OnlyRetryLoopsWrite(log, key, update, base, end)
    ensures key in Replay(log[..end])
    ensures Replay(log[..end])[key].value == Iterate(update, CountWrites(log, key, base, end), Replay(log[..base])[key].value)
    decreases end - base
  {
    if base == end {
    } else {
      var last := end - 1;
      NoLostUpdate(log, key, update, base, last);
      StepOnKey(log, key, last);
      var writes, first := CountWrites(log, key, base, last), Replay(log[..base])[key].value;
      if Writes(log[last], key) {
        RetryWriteApplies(log, key, update, base, last);
        assert CountWrites(log, key, base, end) == writes + 1;
        assert Iterate(update, writes + 1, first) == update(Iterate(update, writes, first));
      } else {
        assert CountWrites(log, key, base, end) == writes;
      }
    }
  }
}
