/**
 The promise-chaining lock `AsyncMutex.runExclusive` (`async.ts`).

 The k-th call waits for tail k, enters, and leaves by resolving its release;
 tail k + 1 resolves once tail k and that release have.
 */
module AsyncMutex {
  import opened Prelude

  datatype Phase = Waiting | Inside | Left

  /** `tails[k]` tells whether the promise that call k awaits has resolved; `entered` lists the calls in entry order. */
  datatype Lock = Lock(calls: seq<Phase>, tails: seq<bool>, entered: seq<nat>)

  datatype Event = Call | Enter(k: nat) | Leave(k: nat) | Propagate(k: nat)

  function Initial(): Lock {
    Lock([], [true], [])
  }

  predicate WellFormed(l: Lock) {
    |l.tails| == |l.calls| + 1 && l.tails[0]
  }

  /** Bodies may leave by returning or by throwing: the `finally` releases either way. */
  predicate Enabled(l: Lock, e: Event)
    requires WellFormed(l)
  {
    match e
    case Call => true
    case Enter(k) => k < |l.calls| && l.calls[k] == Waiting && l.tails[k]
    case Leave(k) => k < |l.calls| && l.calls[k] == Inside
    case Propagate(k) => k < |l.calls| && l.tails[k] && l.calls[k] == Left && !l.tails[k + 1]
  }

  function Next(l: Lock, e: Event): (l': Lock)
    requires WellFormed(l) && Enabled(l, e)
    ensures WellFormed(l')
  {
    match e
    case Call => l.(calls := l.calls + [Waiting], tails := l.tails + [false])
    case Enter(k) => l.(calls := l.calls[k := Inside], entered := l.entered + [k])
    case Leave(k) => l.(calls := l.calls[k := Left])
    case Propagate(k) => l.(tails := l.tails[k + 1 := true])
  }

  ghost predicate Invariant(l: Lock) {
    && WellFormed(l)
    && |l.entered| <= |l.calls|
    && (forall i :: 0 <= i < |l.entered| ==> l.entered[i] == i)
    && (forall k :: 0 <= k < |l.calls| ==> (l.calls[k] != Waiting <==> k < |l.entered|))
    && (forall j, k :: 0 <= j < k < |l.tails| && l.tails[k] ==> l.calls[j] == Left)
    && (forall k :: 0 <= k < |l.calls| && l.calls[k] != Waiting ==> l.tails[k])
  }

  lemma NextKeeps(l: Lock, e: Event)
    requires Invariant(l) && Enabled(l, e)
    ensures Invariant(Next(l, e))
  {
    if e.Enter? {
      assert e.k > 0 ==> l.calls[e.k - 1] == Left;
    }
  }

  /** At most one body is inside at any moment. */
  lemma {:induction false} MutualExclusion(l: Lock, j: nat, k: nat)
    requires Invariant(l) && j < |l.calls| && k < |l.calls| && l.calls[j] == Inside && l.calls[k] == Inside
    ensures j == k
  {
    assert l.tails[j] && l.tails[k];
  }

  ghost predicate IsRun(locks: seq<Lock>) {
    && |locks| >= 1 && locks[0] == Initial()
    && forall i :: 0 <= i < |locks| - 1 ==> IsStep(locks[i], locks[i + 1])
  }

  ghost predicate IsStep(l: Lock, l': Lock) {
    WellFormed(l) && exists e :: Enabled(l, e) && l' == Next(l, e)
  }

  /** In every run the bodies enter in call order, whatever the earlier ones do. */
  lemma {:induction false} EntersInCallOrder(locks: seq<Lock>, n: nat)
    requires IsRun(locks) && n < |locks|
    ensures Invariant(locks[n])
    ensures forall i :: 0 <= i < |locks[n].entered| ==> locks[n].entered[i] == i
  {
    if n == 0 {
    } else {
      EntersInCallOrder(locks, n - 1);
      assert IsStep(locks[n - 1], locks[n - 1 + 1]);
      var e :| Enabled(locks[n - 1], e) && locks[n] == Next(locks[n - 1], e);
      NextKeeps(locks[n - 1], e);
    }
  }

  /** The least index with a property. */
  ghost function Least(n: nat, p: nat -> bool): (i: nat)
    requires p(n)
    ensures i <= n && p(i) && forall j: nat :: j < i ==> !p(j)
  {
    if exists j: nat :: j < n && p(j) then (var j: nat :| j < n && p(j); Least(j, p)) else n
  }

  /** No deadlock: while some call has not left, a body can enter or leave, or a tail can resolve. */
  lemma {:induction false} NeverDeadlocked(l: Lock, k: nat) returns (e: Event)
    requires Invariant(l) && k < |l.calls| && l.calls[k] != Left
    ensures e != Call && Enabled(l, e)
  {
    var unfinished := (i: nat) => i < |l.calls| && l.calls[i] != Left;
    var first := Least(k, unfinished);
    if l.calls[first] == Inside {
      e := Leave(first);
    } else if l.tails[first] {
      e := Enter(first);
    } else {
      var unresolved := (i: nat) => i < |l.tails| && !l.tails[i];
      var closed := Least(first, unresolved);
      assert !unresolved(closed - 1) && !unfinished(closed - 1);
      e := Propagate(closed - 1);
    }
  }

  // The lock as the source keeps it: one field, and promises that wait for one another.

  type PromiseId = nat

  /** A promise that someone settles, or one that resolves once `previous` and then `release` have. */
  datatype Promise = Plain(resolved: bool) | Chained(previous: PromiseId, release: PromiseId, resolved: bool)

  /** What a call of `runExclusive` holds on to: the promise it awaits and the release it settles. */
  datatype Exclusive = Exclusive(previous: PromiseId, release: PromiseId, phase: Phase)

  /** The call after `k` others awaits the promise `2 * k`, settles the next one and leaves the one after that as the tail. */
  predicate LinkedAt(promises: seq<Promise>, calls: seq<Exclusive>, k: nat)
    requires k < |calls| && |promises| == 2 * |calls| + 1
  {
    && calls[k].previous == 2 * k && calls[k].release == 2 * k + 1
    && promises[2 * k + 1] == Plain(calls[k].phase == Left)
    && promises[2 * k + 2] == Chained(2 * k, 2 * k + 1, promises[2 * k + 2].resolved)
  }

  ghost predicate Linked(promises: seq<Promise>, calls: seq<Exclusive>) {
    && |promises| == 2 * |calls| + 1 && promises[0] == Plain(true)
    && forall k: nat {:trigger LinkedAt(promises, calls, k)} :: k < |calls| ==> LinkedAt(promises, calls, k)
  }

  function Phases(calls: seq<Exclusive>): (r: seq<Phase>)
    ensures |r| == |calls| && forall k :: 0 <= k < |calls| ==> r[k] == calls[k].phase
  {
    seq(|calls|, k requires 0 <= k < |calls| => calls[k].phase)
  }

  function Tails(promises: seq<Promise>, n: nat): (r: seq<bool>)
    requires |promises| == 2 * n + 1
    ensures |r| == n + 1 && forall k :: 0 <= k <= n ==> r[k] == promises[2 * k].resolved
  {
    seq(n + 1, k requires 0 <= k <= n => promises[2 * k].resolved)
  }

  /** The lock that the promises and calls amount to. */
  function LockOf(promises: seq<Promise>, calls: seq<Exclusive>, entered: seq<nat>): Lock
    requires |promises| == 2 * |calls| + 1
  {
    Lock(Phases(calls), Tails(promises, |calls|), entered)
  }

  /** A new release, and a tail that waits for the previous one and for it. */
  lemma CallRefines(promises: seq<Promise>, calls: seq<Exclusive>, entered: seq<nat>)
    requires Linked(promises, calls)
    ensures var n := |promises|;
      var promises', calls' := promises + [Plain(false), Chained(n - 1, n, false)], calls + [Exclusive(n - 1, n, Waiting)];
      Linked(promises', calls') && LockOf(promises', calls', entered) == Next(LockOf(promises, calls, entered), Call)
  {
    var n := |promises|;
    var promises', calls' := promises + [Plain(false), Chained(n - 1, n, false)], calls + [Exclusive(n - 1, n, Waiting)];
    forall k: nat | k < |calls'|
      ensures LinkedAt(promises', calls', k)
    {
      assert k < |calls| ==> LinkedAt(promises, calls, k);
    }
    assert Phases(calls') == Phases(calls) + [Waiting];
    assert Tails(promises', |calls'|) == Tails(promises, |calls|) + [false];
  }

  lemma EnterRefines(promises: seq<Promise>, calls: seq<Exclusive>, entered: seq<nat>, k: nat)
    requires Linked(promises, calls) && k < |calls| && calls[k].phase == Waiting
    requires calls[k].previous < |promises| && promises[calls[k].previous].resolved
    ensures var calls' := calls[k := calls[k].(phase := Inside)]; var l := LockOf(promises, calls, entered);
      Linked(promises, calls') && Enabled(l, Enter(k)) && LockOf(promises, calls', entered + [k]) == Next(l, Enter(k))
  {
    var calls' := calls[k := calls[k].(phase := Inside)];
    assert LinkedAt(promises, calls, k);
    forall j: nat | j < |calls'|
      ensures LinkedAt(promises, calls', j)
    {
      assert LinkedAt(promises, calls, j);
    }
    assert Phases(calls') == Phases(calls)[k := Inside];
  }

  lemma LeaveRefines(promises: seq<Promise>, calls: seq<Exclusive>, entered: seq<nat>, k: nat)
    requires Linked(promises, calls) && k < |calls| && calls[k].phase == Inside
    ensures calls[k].release < |promises|
    ensures var promises', calls' := promises[calls[k].release := Plain(true)], calls[k := calls[k].(phase := Left)];
      var l := LockOf(promises, calls, entered);
      Linked(promises', calls') && Enabled(l, Leave(k)) && LockOf(promises', calls', entered) == Next(l, Leave(k))
  {
    assert LinkedAt(promises, calls, k);
    var promises', calls' := promises[2 * k + 1 := Plain(true)], calls[k := calls[k].(phase := Left)];
    forall j: nat | j < |calls'|
      ensures LinkedAt(promises', calls', j)
    {
      assert LinkedAt(promises, calls, j);
    }
    assert Phases(calls') == Phases(calls)[k := Left];
    assert Tails(promises', |calls'|) == Tails(promises, |calls|);
  }

  lemma ReleaseIsPlain(promises: seq<Promise>, calls: seq<Exclusive>, k: nat)
    requires Linked(promises, calls) && k < |calls|
    ensures promises[2 * k + 1].Plain?
  {
    assert LinkedAt(promises, calls, k);
  }

  /** Only tails are chained, so the reaction of a chained promise moves the lock on. */
  lemma ResolveRefines(promises: seq<Promise>, calls: seq<Exclusive>, entered: seq<nat>, id: PromiseId) returns (k: nat)
    requires Linked(promises, calls) && id < |promises| && promises[id].Chained? && !promises[id].resolved
    requires promises[id].previous < |promises| && promises[promises[id].previous].resolved
    requires promises[id].release < |promises| && promises[promises[id].release].resolved
    ensures var promises' := promises[id := promises[id].(resolved := true)]; var l := LockOf(promises, calls, entered);
      Linked(promises', calls) && Enabled(l, Propagate(k)) && LockOf(promises', calls, entered) == Next(l, Propagate(k))
  {
    var half := id / 2;
    if half < |calls| { ReleaseIsPlain(promises, calls, half); }
    assert id == 2 * half && half > 0;
    k := half - 1;
    assert LinkedAt(promises, calls, k);
    var promises' := promises[id := promises[id].(resolved := true)];
    forall j: nat | j < |calls|
      ensures LinkedAt(promises', calls, j)
    {
      assert LinkedAt(promises, calls, j);
    }
    assert Tails(promises', |calls|) == Tails(promises, |calls|)[k + 1 := true];
  }

  class AsyncMutex {
    /** The promise that the latest call has chained; a resolved one before the first. */
    var tail: PromiseId
    /** The promises made and the calls begun so far; the source's closures hold on to them. */
    var promises: seq<Promise>
    var calls: seq<Exclusive>
    ghost var entered: seq<nat>

    ghost predicate Valid()
      reads this
    {
      Linked(promises, calls) && tail == 2 * |calls| && Invariant(View())
    }

    ghost function View(): Lock
      requires |promises| == 2 * |calls| + 1
      reads this
    {
      LockOf(promises, calls, entered)
    }

    constructor ()
      ensures Valid() && View() == Initial()
    {
      tail, promises, calls, entered := 0, [Plain(true)], [], [];
      new;
      assert Tails([Plain(true)], 0) == [true];
    }

    /** The synchronous part of `runExclusive`: the call awaits the tail it finds and leaves a new one. */
    method RunExclusive() returns (k: nat)
      requires Valid()
      modifies this
      ensures Valid() && View() == Next(old(View()), Call)
      ensures k == |old(calls)| && calls == old(calls) + [Exclusive(old(tail), |old(promises)|, Waiting)]
      ensures |promises| == |old(promises)| + 2 && promises[tail] == Chained(old(tail), |old(promises)|, false)
    {
      CallRefines(promises, calls, entered);
      NextKeeps(View(), Call);
      var previous, release := tail, |promises|;
      k := |calls|;
      promises := promises + [Plain(false), Chained(previous, release, false)];
      tail := release + 1;
      calls := calls + [Exclusive(previous, release, Waiting)];
    }

    /** `await previous` returns. */
    method EnterBody(k: nat)
      requires Valid() && k < |calls| && calls[k].phase == Waiting
      requires calls[k].previous < |promises| && promises[calls[k].previous].resolved
      modifies this`calls, this`entered
      ensures Valid() && Enabled(old(View()), Enter(k)) && View() == Next(old(View()), Enter(k))
    {
      EnterRefines(promises, calls, entered, k);
      NextKeeps(View(), Enter(k));
      calls := calls[k := calls[k].(phase := Inside)];
      entered := entered + [k];
    }

    /** The operation has returned or thrown: `finally { release.resolve(); }` */
    method LeaveBody(k: nat)
      requires Valid() && k < |calls| && calls[k].phase == Inside
      modifies this`calls, this`promises
      ensures Valid() && Enabled(old(View()), Leave(k)) && View() == Next(old(View()), Leave(k))
    {
      LeaveRefines(promises, calls, entered, k);
      NextKeeps(View(), Leave(k));
      promises := promises[calls[k].release := Plain(true)];
      calls := calls[k := calls[k].(phase := Left)];
    }

    /** `previous.then(() => release.promise)`: the chained promise resolves once both have. */
    method ResolveChained(id: PromiseId) returns (ghost k: nat)
      requires Valid() && id < |promises| && promises[id].Chained? && !promises[id].resolved
      requires promises[id].previous < |promises| && promises[promises[id].previous].resolved
      requires promises[id].release < |promises| && promises[promises[id].release].resolved
      modifies this`promises
      ensures Valid() && Enabled(old(View()), Propagate(k)) && View() == Next(old(View()), Propagate(k))
    {
      k := ResolveRefines(promises, calls, entered, id);
      NextKeeps(View(), Propagate(k));
      promises := promises[id := promises[id].(resolved := true)];
    }
  }

  /** Of the calls of one lock, at most one is inside its operation. */
  lemma CallsExclude(m: AsyncMutex, j: nat, k: nat)
    requires m.Valid() && j < |m.calls| && k < |m.calls| && m.calls[j].phase == Inside && m.calls[k].phase == Inside
    ensures j == k
  {
    MutualExclusion(m.View(), j, k);
  }
}
