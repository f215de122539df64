/** The fixed-window rate limiter of the gateway (`api-gateway.ts`). */
module RateLimit {
  import opened Prelude

  type Key = string

  datatype Window = Window(count: int, resetAt: int)

  /** `consumeRateLimit` for one key. */
  function Consume(window: Option<Window>, limit: int, windowMs: int, now: int): (r: (Window, bool)) {
    if window.None? || now >= window.value.resetAt then (Window(1, now + windowMs), true)
    else if window.value.count >= limit then (window.value, false)
    else (Window(window.value.count + 1, window.value.resetAt), true)
  }

  class ApiGateway {
    var rateWindows: map<Key, Window>

    constructor ()
      ensures rateWindows == map[]
    {
      rateWindows := map[];
    }

    method ConsumeRateLimit(key: Key, limit: int, windowMs: int, now: int) returns (allowed: bool)
      modifies this
      ensures var before := if key in old(rateWindows) then Some(old(rateWindows)[key]) else None;
        rateWindows == old(rateWindows)[key := Consume(before, limit, windowMs, now).0] && allowed == Consume(before, limit, windowMs, now).1
      ensures allowed <==> key !in old(rateWindows) || now >= old(rateWindows)[key].resetAt || old(rateWindows)[key].count < limit
      ensures key !in old(rateWindows) || now >= old(rateWindows)[key].resetAt ==> rateWindows == old(rateWindows)[key := Window(1, now + windowMs)]
      ensures key in old(rateWindows) && now < old(rateWindows)[key].resetAt ==>
        rateWindows == old(rateWindows)[key := old(rateWindows)[key].(count := old(rateWindows)[key].count + if allowed then 1 else 0)]
    {
      if key !in rateWindows || now >= rateWindows[key].resetAt {
        rateWindows := rateWindows[key := Window(1, now + windowMs)];
        return true;
      }
      var window := rateWindows[key];
      if window.count >= limit { return false; }
      rateWindows := rateWindows[key := window.(count := window.count + 1)];
      return true;
    }
  }

  // What one caller key sees over a run with fixed route settings.

  /** An admitted request: when, in which window, and whether it opened the window. */
  datatype Admission = Admission(time: int, window: nat, opens: bool)

  datatype Log = Log(window: Option<Window>, starts: seq<int>, admissions: seq<Admission>)

  function Serve(log: Log, limit: int, windowMs: int, now: int): Log {
    var (window, allowed) := Consume(log.window, limit, windowMs, now);
    if !allowed then log
    else if log.window.None? || now >= log.window.value.resetAt
    then Log(Some(window), log.starts + [now], log.admissions + [Admission(now, |log.starts|, true)])
    else Log(Some(window), log.starts, log.admissions + [Admission(now, if |log.starts| > 0 then |log.starts| - 1 else 0, false)])
  }

  function Run(times: seq<int>, limit: int, windowMs: int): Log {
    if times == [] then Log(None, [], []) else Serve(Run(times[..|times| - 1], limit, windowMs), limit, windowMs, times[|times| - 1])
  }

  predicate Clocked(times: seq<int>) {
    forall i, j :: 0 <= i < j < |times| ==> times[i] <= times[j]
  }

  function Allowance(limit: int): (n: nat)
    ensures n >= 1
  {
    if limit > 1 then limit else 1
  }

  /** Admissions in one window, without the one that opened it. */
  function Later(admissions: seq<Admission>, window: nat): nat {
    if admissions == [] then 0
    else
      var last := admissions[|admissions| - 1];
      Later(admissions[..|admissions| - 1], window) + if last.window == window && !last.opens then 1 else 0
  }

  function Openers(admissions: seq<Admission>, window: nat): nat {
    if admissions == [] then 0
    else
      var last := admissions[|admissions| - 1];
      Openers(admissions[..|admissions| - 1], window) + if last.window == window && last.opens then 1 else 0
  }

  function InWindow(admissions: seq<Admission>, window: nat): nat {
    Openers(admissions, window) + Later(admissions, window)
  }

  /** Admissions in the half-open interval from `start` to `end`. */
  function Within(admissions: seq<Admission>, start: int, end: int): nat {
    if admissions == [] then 0
    else
      Within(admissions[..|admissions| - 1], start, end) + if start <= admissions[|admissions| - 1].time < end then 1 else 0
  }

  predicate Placed(log: Log, windowMs: int, i: nat)
    requires i < |log.admissions|
  {
    var a := log.admissions[i];
    a.window < |log.starts| && if a.opens then a.time == log.starts[a.window] else log.starts[a.window] <= a.time < log.starts[a.window] + windowMs
  }

  predicate Filled(log: Log, limit: int, w: nat) {
    Later(log.admissions, w) <= Allowance(limit) - 1 && Openers(log.admissions, w) <= 1
  }

  predicate Apart(starts: seq<int>, windowMs: int, i: nat)
    requires i + 1 < |starts|
  {
    starts[i + 1] - starts[i] >= windowMs
  }

  /** Each window starts at least `windowMs` after the one before. */
  ghost predicate StartsSpaced(starts: seq<int>, windowMs: int) {
    forall i: nat {:trigger Apart(starts, windowMs, i)} :: i + 1 < |starts| ==> Apart(starts, windowMs, i)
  }

  ghost predicate Invariant(log: Log, limit: int, windowMs: int, now: int) {
    && (log.window.None? <==> log.starts == [])
    && (log.window.None? ==> log.admissions == [])
    && (log.window.Some? ==>
      var current := |log.starts| - 1;
      log.starts[current] <= now && log.window.value.resetAt == log.starts[current] + windowMs
      && log.window.value.count == 1 + Later(log.admissions, current) && Openers(log.admissions, current) == 1)
    && AllPlaced(log, windowMs) && AllFilled(log, limit)
    && StartsSpaced(log.starts, windowMs)
  }

  lemma {:induction false} UnusedWindow(admissions: seq<Admission>, w: nat)
    requires forall i :: 0 <= i < |admissions| ==> admissions[i].window != w
    ensures Later(admissions, w) == 0 && Openers(admissions, w) == 0
  {
    if admissions == [] {
    } else {
      UnusedWindow(admissions[..|admissions| - 1], w);
    }
  }

  lemma CountsAppend(admissions: seq<Admission>, a: Admission, w: nat)
    ensures Later(admissions + [a], w) == Later(admissions, w) + if a.window == w && !a.opens then 1 else 0
    ensures Openers(admissions + [a], w) == Openers(admissions, w) + if a.window == w && a.opens then 1 else 0
  {
    assert (admissions + [a])[..|admissions|] == admissions;
  }

  lemma SpacedAppend(starts: seq<int>, windowMs: int, now: int)
    requires StartsSpaced(starts, windowMs) && (starts != [] ==> now - starts[|starts| - 1] >= windowMs)
    ensures StartsSpaced(starts + [now], windowMs)
  {
    forall i: nat | i + 1 < |starts + [now]|
      ensures Apart(starts + [now], windowMs, i)
    {
      assert i + 1 < |starts| ==> Apart(starts, windowMs, i);
    }
  }

  ghost predicate AllPlaced(log: Log, windowMs: int) {
    forall i {:trigger Placed(log, windowMs, i)} :: 0 <= i < |log.admissions| ==> Placed(log, windowMs, i)
  }

  ghost predicate AllFilled(log: Log, limit: int) {
    forall w: nat {:trigger Filled(log, limit, w)} :: Filled(log, limit, w)
  }

  lemma PlacedAppend(log: Log, t: Log, windowMs: int, a: Admission)
    requires AllPlaced(log, windowMs) && t.admissions == log.admissions + [a] && log.starts <= t.starts
    requires Placed(t, windowMs, |log.admissions|)
    ensures AllPlaced(t, windowMs)
  {
    forall i | 0 <= i < |t.admissions|
      ensures Placed(t, windowMs, i)
    {
      assert i < |log.admissions| ==> Placed(log, windowMs, i);
    }
  }

  lemma FilledAppend(log: Log, t: Log, limit: int, a: Admission)
    requires AllFilled(log, limit) && t.admissions == log.admissions + [a]
    requires if a.opens then Openers(log.admissions, a.window) == 0 else Later(log.admissions, a.window) + 1 <= Allowance(limit) - 1
    ensures AllFilled(t, limit)
  {
    forall w: nat
      ensures Filled(t, limit, w)
    {
      assert Filled(log, limit, w);
      CountsAppend(log.admissions, a, w);
    }
  }

  /** A new window opens. */
  lemma OpenKeeps(log: Log, limit: int, windowMs: int, now: int, before: int)
    requires Invariant(log, limit, windowMs, before) && before <= now
    requires log.window.Some? ==> now >= log.window.value.resetAt
    ensures Invariant(Log(Some(Window(1, now + windowMs)), log.starts + [now], log.admissions + [Admission(now, |log.starts|, true)]),
                      limit, windowMs, now)
  {
    var a := Admission(now, |log.starts|, true);
    var t := Log(Some(Window(1, now + windowMs)), log.starts + [now], log.admissions + [a]);
    NewWindowUnused(log, windowMs);
    PlacedAppend(log, t, windowMs, a);
    FilledAppend(log, t, limit, a);
    CountsAppend(log.admissions, a, |log.starts|);
    SpacedAppend(log.starts, windowMs, now);
  }

  /** The current window admits one more. */
  lemma AdmitKeeps(log: Log, limit: int, windowMs: int, now: int, before: int)
    requires Invariant(log, limit, windowMs, before) && before <= now
    requires log.window.Some? && now < log.window.value.resetAt && log.window.value.count < limit
    ensures Invariant(Log(Some(Window(log.window.value.count + 1, log.window.value.resetAt)), log.starts,
                          log.admissions + [Admission(now, |log.starts| - 1, false)]), limit, windowMs, now)
  {
    var a := Admission(now, |log.starts| - 1, false);
    var t := Log(Some(Window(log.window.value.count + 1, log.window.value.resetAt)), log.starts, log.admissions + [a]);
    PlacedAppend(log, t, windowMs, a);
    FilledAppend(log, t, limit, a);
    CountsAppend(log.admissions, a, |log.starts| - 1);
  }

  lemma ServeKeeps(log: Log, limit: int, windowMs: int, now: int, before: int)
    requires Invariant(log, limit, windowMs, before) && before <= now
    ensures Invariant(Serve(log, limit, windowMs, now), limit, windowMs, now)
  {
    if log.window.None? || now >= log.window.value.resetAt {
      OpenKeeps(log, limit, windowMs, now, before);
    } else if log.window.value.count < limit {
      AdmitKeeps(log, limit, windowMs, now, before);
    }
  }

  lemma NewWindowUnused(log: Log, windowMs: int)
    requires AllPlaced(log, windowMs)
    ensures Later(log.admissions, |log.starts|) == 0 && Openers(log.admissions, |log.starts|) == 0
  {
    forall i | 0 <= i < |log.admissions|
      ensures log.admissions[i].window != |log.starts|
    {
      assert Placed(log, windowMs, i);
    }
    UnusedWindow(log.admissions, |log.starts|);
  }

  lemma {:induction false} RunKeeps(times: seq<int>, limit: int, windowMs: int)
    requires Clocked(times)
    ensures Invariant(Run(times, limit, windowMs), limit, windowMs, if times == [] then 0 else times[|times| - 1])
  {
    if times != [] {
      var front, now := times[..|times| - 1], times[|times| - 1];
      RunKeeps(front, limit, windowMs);
      ServeKeeps(Run(front, limit, windowMs), limit, windowMs, now, if front == [] then now else front[|front| - 1]);
    } else {
      assert forall w: nat :: Filled(Run(times, limit, windowMs), limit, w);
    }
  }

  /** Each window admits at most max(1, limit) requests, and windows start at least `windowMs` apart. */
  lemma {:induction false} WindowsAreBounded(times: seq<int>, limit: int, windowMs: int)
    requires Clocked(times)
    ensures var log := Run(times, limit, windowMs);
      (forall w: nat :: InWindow(log.admissions, w) <= Allowance(limit))
      && StartsSpaced(log.starts, windowMs)
  {
    var log := Run(times, limit, windowMs);
    RunKeeps(times, limit, windowMs);
    forall w: nat
      ensures InWindow(log.admissions, w) <= Allowance(limit)
    {
      assert Filled(log, limit, w);
    }
  }

  lemma {:induction false} StartsApart(starts: seq<int>, windowMs: int, i: nat, j: nat)
    requires i < j < |starts| && StartsSpaced(starts, windowMs) && windowMs >= 0
    ensures starts[j] >= starts[i] + windowMs
    decreases j - i
  {
    assert Apart(starts, windowMs, j - 1);
    if i < j - 1 {
      StartsApart(starts, windowMs, i, j - 1);
    }
  }

  /** The first window that starts no earlier than `from`. */
  function FirstFrom(starts: seq<int>, from: int): (c: nat)
    ensures c <= |starts| && (c < |starts| ==> starts[c] >= from) && forall i :: 0 <= i < c ==> starts[i] < from
  {
    if starts == [] || starts[0] >= from then 0 else 1 + FirstFrom(starts[1..], from)
  }

  /** Only the last window begun before the interval, without its opening request, and the next one can admit inside it. */
  predicate Contributes(a: Admission, c: nat) {
    a.window == c || (a.window + 1 == c && !a.opens)
  }

  lemma {:induction false} ContributesInside(log: Log, windowMs: int, from: int, i: nat)
    requires AllPlaced(log, windowMs) && StartsSpaced(log.starts, windowMs) && windowMs > 0
    requires i < |log.admissions| && from <= log.admissions[i].time < from + windowMs
    ensures Contributes(log.admissions[i], FirstFrom(log.starts, from))
  {
    var w, c := log.admissions[i].window, FirstFrom(log.starts, from);
    assert Placed(log, windowMs, i);
    if w > c {
      StartsApart(log.starts, windowMs, c, w);
    } else if w + 1 < c {
      StartsApart(log.starts, windowMs, w, c - 1);
    }
  }

  lemma {:induction false} WithinByWindows(admissions: seq<Admission>, from: int, end: int, c: nat)
    requires forall i :: 0 <= i < |admissions| && from <= admissions[i].time < end ==> Contributes(admissions[i], c)
    ensures Within(admissions, from, end) <= InWindow(admissions, c) + if c > 0 then Later(admissions, c - 1) else 0
  {
    if admissions == [] {
    } else {
      WithinByWindows(admissions[..|admissions| - 1], from, end, c);
    }
  }

  lemma {:induction false} NothingWithin(admissions: seq<Admission>, from: int, end: int)
    requires end <= from
    ensures Within(admissions, from, end) == 0
  {
    if admissions == [] {
    } else {
      NothingWithin(admissions[..|admissions| - 1], from, end);
    }
  }

  /** At most 2 * max(1, limit) - 1 requests are admitted in any half-open interval as long as the window. */
  lemma {:induction false} IntervalBounded(times: seq<int>, limit: int, windowMs: int, from: int)
    requires Clocked(times)
    ensures Admitted(times, limit, windowMs, from, from + windowMs) <= 2 * Allowance(limit) - 1
  {
    var log := Run(times, limit, windowMs);
    if windowMs > 0 {
      RunKeeps(times, limit, windowMs);
      var c := FirstFrom(log.starts, from);
      forall i | 0 <= i < |log.admissions| && from <= log.admissions[i].time < from + windowMs
        ensures Contributes(log.admissions[i], c)
      {
        ContributesInside(log, windowMs, from, i);
      }
      WithinByWindows(log.admissions, from, from + windowMs, c);
      assert Filled(log, limit, c) && (c > 0 ==> Filled(log, limit, c - 1));
    } else {
      NothingWithin(log.admissions, from, from + windowMs);
    }
  }

  function Repeat(time: int, n: nat): (r: seq<int>)
    ensures |r| == n && forall i :: 0 <= i < n ==> r[i] == time
  {
    if n == 0 then [] else Repeat(time, n - 1) + [time]
  }

  /** How many of the requests are admitted in the interval. */
  function Admitted(times: seq<int>, limit: int, windowMs: int, from: int, end: int): nat {
    Within(Run(times, limit, windowMs).admissions, from, end)
  }

  function ServeBurst(log: Log, limit: int, windowMs: int, now: int, n: nat): Log {
    if n == 0 then log else Serve(ServeBurst(log, limit, windowMs, now, n - 1), limit, windowMs, now)
  }

  lemma {:induction false} RunBurst(times: seq<int>, limit: int, windowMs: int, now: int, n: nat)
    ensures Run(times + Repeat(now, n), limit, windowMs) == ServeBurst(Run(times, limit, windowMs), limit, windowMs, now, n)
  {
    var longer := times + Repeat(now, n);
    if n == 0 {
      assert longer == times;
    } else {
      RunBurst(times, limit, windowMs, now, n - 1);
      assert longer[..|longer| - 1] == times + Repeat(now, n - 1) && longer[|longer| - 1] == now;
    }
  }

  lemma ServeOne(log: Log, limit: int, windowMs: int, now: int, from: int, end: int)
    requires Consume(log.window, limit, windowMs, now).1
    ensures var later := Serve(log, limit, windowMs, now);
      later.window == Some(Consume(log.window, limit, windowMs, now).0)
      && Within(later.admissions, from, end) == Within(log.admissions, from, end) + if from <= now < end then 1 else 0
  {
    var later := Serve(log, limit, windowMs, now);
    assert later.admissions[..|later.admissions| - 1] == log.admissions;
  }

  lemma {:induction false} BurstCounted(log: Log, limit: int, windowMs: int, now: int, n: nat)
    requires log.window.Some? && now < log.window.value.resetAt && log.window.value.count + n <= limit
    ensures ServeBurst(log, limit, windowMs, now, n).window == Some(Window(log.window.value.count + n, log.window.value.resetAt))
  {
    if n == 0 {
    } else {
      BurstCounted(log, limit, windowMs, now, n - 1);
    }
  }

  /** A burst the current window has room for is admitted whole. */
  lemma {:induction false} BurstAdmitted(log: Log, limit: int, windowMs: int, now: int, n: nat, from: int, end: int)
    requires log.window.Some? && now < log.window.value.resetAt && log.window.value.count + n <= limit && from <= now < end
    ensures Within(ServeBurst(log, limit, windowMs, now, n).admissions, from, end) == Within(log.admissions, from, end) + n
  {
    if n == 0 {
    } else {
      BurstCounted(log, limit, windowMs, now, n - 1);
      BurstAdmitted(log, limit, windowMs, now, n - 1, from, end);
      ServeOne(ServeBurst(log, limit, windowMs, now, n - 1), limit, windowMs, now, from, end);
    }
  }

  /** One request opens a window, a burst uses it up at its end, and the next window is used up at its start. */
  function Worst(limit: int, windowMs: int): (times: seq<int>)
    requires limit >= 1 && windowMs >= 2
    ensures Clocked(times)
  {
    [0] + Repeat(windowMs - 1, limit - 1) + [windowMs] + Repeat(windowMs, limit - 1)
  }

  function Opened(windowMs: int): Log {
    Log(Some(Window(1, windowMs)), [0], [Admission(0, 0, true)])
  }

  function UsedUp(limit: int, windowMs: int): Log
    requires limit >= 1
  {
    ServeBurst(Opened(windowMs), limit, windowMs, windowMs - 1, limit - 1)
  }

  lemma RunWorst(limit: int, windowMs: int)
    requires limit >= 1 && windowMs >= 2
    ensures Run(Worst(limit, windowMs), limit, windowMs)
      == ServeBurst(Serve(UsedUp(limit, windowMs), limit, windowMs, windowMs), limit, windowMs, windowMs, limit - 1)
  {
    assert [0][..0] == [];
    assert Run([0], limit, windowMs) == Opened(windowMs);
    RunBurst([0], limit, windowMs, windowMs - 1, limit - 1);
    var full := [0] + Repeat(windowMs - 1, limit - 1);
    assert (full + [windowMs])[..|full|] == full;
    RunBurst(full + [windowMs], limit, windowMs, windowMs, limit - 1);
  }

  lemma UsedUpAdmitted(limit: int, windowMs: int)
    requires limit >= 1 && windowMs >= 2
    ensures Within(UsedUp(limit, windowMs).admissions, windowMs - 1, windowMs - 1 + windowMs) == limit - 1
  {
    OpenedOutside(windowMs);
    BurstAdmitted(Opened(windowMs), limit, windowMs, windowMs - 1, limit - 1, windowMs - 1, windowMs - 1 + windowMs);
  }

  lemma OpenedOutside(windowMs: int)
    requires windowMs >= 2
    ensures Within(Opened(windowMs).admissions, windowMs - 1, windowMs - 1 + windowMs) == 0
  {
    assert Opened(windowMs).admissions[..0] == [];
  }

  lemma NextAdmitted(limit: int, windowMs: int)
    requires limit >= 1 && windowMs >= 2
    ensures var next := Serve(UsedUp(limit, windowMs), limit, windowMs, windowMs);
      next.window == Some(Window(1, windowMs + windowMs)) && Within(next.admissions, windowMs - 1, windowMs - 1 + windowMs) == limit
  {
    UsedUpAdmitted(limit, windowMs);
    BurstCounted(Opened(windowMs), limit, windowMs, windowMs - 1, limit - 1);
    ServeOne(UsedUp(limit, windowMs), limit, windowMs, windowMs, windowMs - 1, windowMs - 1 + windowMs);
  }

  /** The bound is attained. */
  lemma {:induction false} IntervalBoundAttained(limit: int, windowMs: int)
    requires limit >= 1 && windowMs >= 2
    ensures Admitted(Worst(limit, windowMs), limit, windowMs, windowMs - 1, windowMs - 1 + windowMs) == 2 * Allowance(limit) - 1
  {
    RunWorst(limit, windowMs);
    NextAdmitted(limit, windowMs);
    var next := Serve(UsedUp(limit, windowMs), limit, windowMs, windowMs);
    BurstAdmitted(next, limit, windowMs, windowMs, limit - 1, windowMs - 1, windowMs - 1 + windowMs);
  }

  lemma {:induction false} WindowWithin(admissions: seq<Admission>, w: nat, from: int, end: int)
    requires forall i :: 0 <= i < |admissions| && admissions[i].window == w ==> from <= admissions[i].time < end
    ensures InWindow(admissions, w) <= Within(admissions, from, end)
  {
    if admissions == [] {
    } else {
      WindowWithin(admissions[..|admissions| - 1], w, from, end);
    }
  }

  /** A request is refused only inside a window, as long as the setting says, in which max(1, limit) requests have been admitted. */
  lemma {:induction false} RefusedWhenUsedUp(times: seq<int>, limit: int, windowMs: int, now: int) returns (start: int)
    requires Clocked(times + [now]) && !Consume(Run(times, limit, windowMs).window, limit, windowMs, now).1
    ensures start <= now < start + windowMs && Admitted(times, limit, windowMs, start, start + windowMs) >= Allowance(limit)
  {
    var log := Run(times, limit, windowMs);
    assert times == (times + [now])[..|times|];
    assert forall i :: 0 <= i < |times| ==> (times + [now])[i] == times[i];
    RunKeeps(times, limit, windowMs);
    var current: nat := |log.starts| - 1;
    start := log.starts[current];
    assert times != [];
    assert (times + [now])[|times| - 1] <= (times + [now])[|times|];
    forall i | 0 <= i < |log.admissions| && log.admissions[i].window == current
      ensures start <= log.admissions[i].time < start + windowMs
    {
      assert Placed(log, windowMs, i);
    }
    WindowWithin(log.admissions, current, start, start + windowMs);
  }

  // Many callers: each key is served as if it were alone.

  datatype Request = Request(key: Key, now: int)

  datatype Settings = Settings(limit: int, windowMs: int)

  function WindowOf(windows: map<Key, Window>, key: Key): Option<Window> {
    if key in windows then Some(windows[key]) else None
  }

  /** `settings` gives the limit of the route that a key belongs to. */
  function Decision(windows: map<Key, Window>, r: Request, settings: Key -> Settings): (Window, bool) {
    Consume(WindowOf(windows, r.key), settings(r.key).limit, settings(r.key).windowMs, r.now)
  }

  /** The gateway's windows after these requests. */
  function Windows(requests: seq<Request>, settings: Key -> Settings): map<Key, Window> {
    if requests == [] then map[]
    else
      var before, last := Windows(requests[..|requests| - 1], settings), requests[|requests| - 1];
      before[last.key := Decision(before, last, settings).0]
  }

  /** The requests of one key that the gateway admits between `start` and `end`. */
  function AdmittedOf(requests: seq<Request>, settings: Key -> Settings, key: Key, start: int, end: int): nat {
    if requests == [] then 0
    else
      var front, last := requests[..|requests| - 1], requests[|requests| - 1];
      AdmittedOf(front, settings, key, start, end)
      + if last.key == key && start <= last.now < end && Decision(Windows(front, settings), last, settings).1 then 1 else 0
  }

  function TimesOf(requests: seq<Request>, key: Key): seq<int> {
    if requests == [] then []
    else
      var before, last := TimesOf(requests[..|requests| - 1], key), requests[|requests| - 1];
      if last.key == key then before + [last.now] else before
  }

  ghost predicate InClockOrder(requests: seq<Request>) {
    forall i, j :: 0 <= i < j < |requests| ==> requests[i].now <= requests[j].now
  }

  lemma {:induction false} TimesClocked(requests: seq<Request>, key: Key)
    requires InClockOrder(requests)
    ensures Clocked(TimesOf(requests, key))
    ensures forall t :: t in TimesOf(requests, key) ==> t <= requests[|requests| - 1].now
  {
    if requests == [] {
    } else {
      var front, last := requests[..|requests| - 1], requests[|requests| - 1];
      TimesClocked(front, key);
      if front != [] { assert front[|front| - 1].now <= last.now; }
      ClockedAppend(TimesOf(front, key), last.now);
    }
  }

  lemma ClockedAppend(times: seq<int>, now: int)
    requires Clocked(times) && forall t :: t in times ==> t <= now
    ensures Clocked(times + [now])
  {
    var longer := times + [now];
    forall i, j | 0 <= i < j < |longer|
      ensures longer[i] <= longer[j]
    {
      assert longer[i] == times[i] && times[i] in times;
    }
  }

  /** The requests under other keys leave the window of a key, and the decisions on it, as they would be without them. */
  lemma {:induction false} KeyServedAlone(requests: seq<Request>, settings: Key -> Settings, key: Key, start: int, end: int)
    ensures WindowOf(Windows(requests, settings), key) == Run(TimesOf(requests, key), settings(key).limit, settings(key).windowMs).window
    ensures AdmittedOf(requests, settings, key, start, end)
         == Admitted(TimesOf(requests, key), settings(key).limit, settings(key).windowMs, start, end)
  {
    if requests == [] {
    } else {
      var front, last := requests[..|requests| - 1], requests[|requests| - 1];
      KeyServedAlone(front, settings, key, start, end);
      if last.key == key { ServedNext(TimesOf(front, key), settings(key), last.now, start, end); }
    }
  }

  lemma ServedNext(times: seq<int>, s: Settings, now: int, start: int, end: int)
    ensures var window := Run(times, s.limit, s.windowMs).window;
      && Run(times + [now], s.limit, s.windowMs).window == Some(Consume(window, s.limit, s.windowMs, now).0)
      && Admitted(times + [now], s.limit, s.windowMs, start, end)
         == Admitted(times, s.limit, s.windowMs, start, end) + if Consume(window, s.limit, s.windowMs, now).1 && start <= now < end then 1 else 0
  {
    assert (times + [now])[..|times|] == times;
    var log, next := Run(times, s.limit, s.windowMs), Run(times + [now], s.limit, s.windowMs);
    if Consume(log.window, s.limit, s.windowMs, now).1 { assert next.admissions[..|next.admissions| - 1] == log.admissions; }
  }

  /** Whatever else the gateway is asked, it admits at most this many requests of a key in any interval of the window's length. */
  lemma {:induction false} EveryKeyBounded(requests: seq<Request>, settings: Key -> Settings, key: Key, start: int)
    requires InClockOrder(requests)
    ensures AdmittedOf(requests, settings, key, start, start + settings(key).windowMs) <= 2 * Allowance(settings(key).limit) - 1
  {
    TimesClocked(requests, key);
    KeyServedAlone(requests, settings, key, start, start + settings(key).windowMs);
    IntervalBounded(TimesOf(requests, key), settings(key).limit, settings(key).windowMs, start);
  }
}
