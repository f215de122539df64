/** Every call of the store is served: its operation is performed once, and no interleaving can keep it waiting for good. */
module StoreServed {
  import opened Prelude
  import opened KeyValueStore
  import opened Mutex = AsyncMutex
  import opened StoreRuns

  /** The call performed this operation once, and no other. */
  ghost predicate PerformedOnce(log: seq<Record>, k: nat, op: Operation) {
    exists i :: 0 <= i < |log| && OnlyAt(log, i, k) && log[i].op == op
  }

  ghost predicate OnlyAt(log: seq<Record>, i: nat, k: nat)
    requires i < |log|
  {
    forall j :: 0 <= j < |log| ==> (log[j].call == k <==> j == i)
  }

  ghost predicate Unperformed(log: seq<Record>, k: nat) {
    forall j :: 0 <= j < |log| ==> log[j].call != k
  }

  /** A call of a single operation has performed it once if it has entered, and not at all before. */
  ghost predicate CallServed(s: State, k: nat)
    requires k < |s.bodies| == |s.lock.calls|
  {
    s.bodies[k].Single? ==> if s.lock.calls[k] == Waiting then Unperformed(s.log, k) else PerformedOnce(s.log, k, s.bodies[k].op)
  }

  ghost predicate Served(s: State) {
    |s.bodies| == |s.lock.calls| && forall k: nat {:trigger CallServed(s, k)} :: k < |s.bodies| ==> CallServed(s, k)
  }

  lemma AppendedOnce(log: seq<Record>, r: Record)
    requires Unperformed(log, r.call)
    ensures PerformedOnce(log + [r], r.call, r.op)
  {
    assert OnlyAt(log + [r], |log|, r.call);
  }

  lemma AppendedElsewhere(log: seq<Record>, r: Record, k: nat)
    requires r.call != k
    ensures Unperformed(log, k) ==> Unperformed(log + [r], k)
    ensures forall op :: PerformedOnce(log, k, op) ==> PerformedOnce(log + [r], k, op)
  {
    forall op | PerformedOnce(log, k, op)
      ensures PerformedOnce(log + [r], k, op)
    {
      var i :| 0 <= i < |log| && OnlyAt(log, i, k) && log[i].op == op;
      assert OnlyAt(log + [r], i, k) && (log + [r])[i].op == op;
    }
  }

  /** A step that is about another call, if any, leaves a call as it is and what it has performed. */
  lemma OthersStay(s: State, t: State, k: nat)
    requires k < |s.bodies| == |s.lock.calls| && k < |t.bodies| == |t.lock.calls| && CallServed(s, k)
    requires t.bodies[k] == s.bodies[k] && (t.lock.calls[k] == Waiting <==> s.lock.calls[k] == Waiting)
    requires t.log == s.log || (|t.log| > 0 && t.log == s.log + [t.log[|t.log| - 1]] && (t.log[|t.log| - 1].call != k || s.bodies[k].Transaction?))
    ensures CallServed(t, k)
  {
    if t.log != s.log && s.bodies[k].Single? { AppendedElsewhere(s.log, t.log[|t.log| - 1], k); }
  }

  lemma EnterServes(s: State, k: nat)
    requires Linearized(s) && Served(s) && CanHappen(s, EnterBody(k))
    ensures CallServed(Step(s, EnterBody(k)), k)
  {
    assert CallServed(s, k);
    if s.bodies[k].Single? { AppendedOnce(s.log, Record(k, s.bodies[k].op, Do(s.values, s.bodies[k].op).1)); }
  }

  lemma NewUnserved(s: State, body: Body)
    requires Linearized(s)
    ensures CallServed(Step(s, Submit(body)), |s.bodies|)
  {
  }

  lemma StepServes(s: State, e: StoreEvent)
    requires Linearized(s) && Served(s) && CanHappen(s, e)
    ensures Served(Step(s, e))
  {
    var t := Step(s, e);
    forall k: nat | k < |t.bodies|
      ensures CallServed(t, k)
    {
      if e.Submit? && k == |s.bodies| {
        NewUnserved(s, e.body);
      } else if e.EnterBody? && k == e.k {
        EnterServes(s, k);
      } else {
        assert CallServed(s, k);
        OthersStay(s, t, k);
      }
    }
  }

  lemma {:induction false} EveryCallServed(states: seq<State>, n: nat)
    requires IsHistory(states) && n < |states|
    ensures Served(states[n])
  {
    if n > 0 {
      EveryCallServed(states, n - 1);
      EveryHistoryLinearizes(states, n - 1);
      assert StepsTo(states[n - 1], states[n - 1 + 1]);
      var e :| CanHappen(states[n - 1], e) && states[n] == Step(states[n - 1], e);
      StepServes(states[n - 1], e);
    }
  }

  // Progress.

  /** The steps of the lock itself: to enter, to leave, to let the next in. */
  predicate OfLock(e: StoreEvent) {
    e.EnterBody? || e.LeaveBody? || e.PropagateTail?
  }

  /** Of its three steps of the lock a call has these many left, the last of them by its tail. */
  function StepsLeft(phase: Phase): nat {
    match phase
    case Waiting => 2
    case Inside => 1
    case Left => 0
  }

  function Owed(calls: seq<Phase>): nat {
    if calls == [] then 0 else Owed(calls[..|calls| - 1]) + StepsLeft(calls[|calls| - 1])
  }

  function Unresolved(tails: seq<bool>): nat {
    if tails == [] then 0 else Unresolved(tails[..|tails| - 1]) + if tails[|tails| - 1] then 0 else 1
  }

  function Outstanding(l: Lock): nat {
    Owed(l.calls) + Unresolved(l.tails)
  }

  lemma {:induction false} OwedUpdate(calls: seq<Phase>, k: nat, phase: Phase)
    requires k < |calls|
    ensures Owed(calls[k := phase]) + StepsLeft(calls[k]) == Owed(calls) + StepsLeft(phase)
  {
    var front := calls[..|calls| - 1];
    if k < |front| {
      OwedUpdate(front, k, phase);
      assert calls[k := phase][..|calls| - 1] == front[k := phase];
    } else {
      assert calls[k := phase][..|calls| - 1] == front;
    }
  }

  lemma {:induction false} UnresolvedUpdate(tails: seq<bool>, k: nat)
    requires k < |tails| && !tails[k]
    ensures Unresolved(tails[k := true]) + 1 == Unresolved(tails)
  {
    var front := tails[..|tails| - 1];
    if k < |front| {
      UnresolvedUpdate(front, k);
      assert tails[k := true][..|tails| - 1] == front[k := true];
    } else {
      assert tails[k := true][..|tails| - 1] == front;
    }
  }

  lemma CallOwes(l: Lock)
    requires WellFormed(l)
    ensures Outstanding(Next(l, Call)) == Outstanding(l) + 3
  {
    assert (l.calls + [Waiting])[..|l.calls|] == l.calls && (l.tails + [false])[..|l.tails|] == l.tails;
  }

  /** A call adds three steps of the lock, each of them is taken once, and an operation inside a transaction takes none. */
  lemma {:induction false} ThreeStepsEach(s: State, e: StoreEvent)
    requires Linearized(s) && CanHappen(s, e)
    ensures Outstanding(Step(s, e).lock) == if e.Submit? then Outstanding(s.lock) + 3 else if OfLock(e) then Outstanding(s.lock) - 1 else Outstanding(s.lock)
  {
    match e {
      case Submit(_) => CallOwes(s.lock);
      case EnterBody(k) => OwedUpdate(s.lock.calls, k, Inside);
      case LeaveBody(k) => OwedUpdate(s.lock.calls, k, Left);
      case PropagateTail(k) => UnresolvedUpdate(s.lock.tails, k + 1);
      case InTransaction(_, _) =>
    }
  }

  /** Once no step of the lock is possible, every call has left, and every single operation has been performed once. */
  lemma {:induction false} QuietMeansServed(states: seq<State>, n: nat, k: nat)
    requires IsHistory(states) && n < |states| && k < |states[n].lock.calls|
    requires |states[n].bodies| == |states[n].lock.calls| && WellFormed(states[n].lock)
    requires forall e :: OfLock(e) ==> !CanHappen(states[n], e)
    ensures states[n].lock.calls[k] == Left
    ensures states[n].bodies[k].Single? ==> PerformedOnce(states[n].log, k, states[n].bodies[k].op)
  {
    var s := states[n];
    EveryHistoryLinearizes(states, n);
    EveryCallServed(states, n);
    assert CallServed(s, k);
    if s.lock.calls[k] != Left {
      var e := NeverDeadlocked(s.lock, k);
      if e.Enter? {
        assert OfLock(EnterBody(e.k)) && CanHappen(s, EnterBody(e.k));
      } else if e.Leave? {
        assert OfLock(LeaveBody(e.k)) && CanHappen(s, LeaveBody(e.k));
      } else {
        assert OfLock(PropagateTail(e.k)) && CanHappen(s, PropagateTail(e.k));
      }
    }
  }
}
