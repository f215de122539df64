/** The bounded history of `RuntimeStreamHub` (`streaming.ts`) and what a reconnecting subscriber receives. */
module Streaming {
  import opened Prelude

  type Id = string

  datatype StreamEvent = StreamEvent(id: Id, kind: string, data: string)

  /** `findIndex((event) => event.id === afterId)` */
  function FindId(history: seq<StreamEvent>, id: Id): (at: int)
    ensures -1 <= at < |history|
    ensures at == -1 ==> forall i :: 0 <= i < |history| ==> history[i].id != id
    ensures at >= 0 ==> history[at].id == id && forall i :: 0 <= i < at ==> history[i].id != id
  {
    if history == [] then -1
    else if history[0].id == id then 0
    else
      var rest := FindId(history[1..], id);
      if rest == -1 then -1 else rest + 1
  }

  function Last<T>(s: seq<T>, n: nat): seq<T> {
    if |s| <= n then s else s[|s| - n..]
  }

  predicate Differ(events: seq<StreamEvent>, i: nat, j: nat)
    requires i < j < |events|
  {
    events[i].id != events[j].id
  }

  ghost predicate UniqueIds(events: seq<StreamEvent>) {
    forall i: nat, j: nat {:trigger Differ(events, i, j)} :: i < j < |events| ==> Differ(events, i, j)
  }

  class RuntimeStreamHub {
    const historyLimit: nat
    var history: seq<StreamEvent>
    /** Everything ever published. */
    ghost var published: seq<StreamEvent>

    constructor (historyLimit: nat)
      ensures Valid() && this.historyLimit == historyLimit && history == [] && published == []
    {
      this.historyLimit, history, published := historyLimit, [], [];
    }

    ghost predicate Valid()
      reads this
    {
      UniqueIds(published) && history == Last(published, historyLimit)
    }

    method Publish(event: StreamEvent)
      requires Valid() && forall e :: e in published ==> e.id != event.id
      modifies this
      ensures Valid() && published == old(published) + [event]
    {
      history := history + [event];
      if |history| > historyLimit { history := history[1..]; }
      UniqueAppend(published, event);
      LastAppend(published, event, historyLimit);
      published := published + [event];
    }

    /** What `subscribe` replays: nothing without an id; else what follows it, or the whole history if it is not there. */
    method Replay(afterId: Option<Id>) returns (replayed: seq<StreamEvent>)
      requires Valid()
      ensures afterId.None? ==> replayed == []
      ensures afterId.Some? && (forall i :: 0 <= i < |published| ==> published[i].id != afterId.value) ==>
        replayed == Last(published, historyLimit)
      ensures forall seen :: afterId.Some? && 0 <= seen < |published| && published[seen].id == afterId.value ==>
        replayed == Last(published[seen + 1..], historyLimit)
    {
      if afterId.None? { return []; }
      var at := FindId(history, afterId.value);
      forall seen | 0 <= seen < |published| && published[seen].id == afterId.value
        ensures history[at + 1..] == Last(published[seen + 1..], historyLimit)
      {
        ReplayIsLast(published, historyLimit, seen);
      }
      forall i | 0 <= i < |history|
        ensures history[i] in published
      {
        KeptAt(published, historyLimit, i);
      }
      replayed := history[at + 1..];
    }
  }

  lemma UniqueAppend(events: seq<StreamEvent>, event: StreamEvent)
    requires UniqueIds(events) && forall e :: e in events ==> e.id != event.id
    ensures UniqueIds(events + [event])
  {
    forall i: nat, j: nat | i < j < |events| + 1
      ensures Differ(events + [event], i, j)
    {
      assert j < |events| ==> Differ(events, i, j);
    }
  }

  lemma {:induction false} LastAppend<T>(s: seq<T>, x: T, n: nat)
    ensures Last(s + [x], n) == if |Last(s, n) + [x]| > n then (Last(s, n) + [x])[1..] else Last(s, n) + [x]
  {
  }

  /**
   A subscriber that has seen event `seen` gets exactly the last min(missed, limit) of the events it missed, in order:
   no gap if it missed no more than the limit, otherwise the most recent ones.
   */
  lemma {:induction false} ReplayIsLast(published: seq<StreamEvent>, limit: nat, seen: nat)
    requires UniqueIds(published) && seen < |published|
    ensures var history := Last(published, limit);
      history[FindId(history, published[seen].id) + 1..] == Last(published[seen + 1..], limit)
  {
    FoundWhereKept(published, limit, seen);
    AfterSeen(published, limit, seen, FindId(Last(published, limit), published[seen].id));
  }

  lemma {:induction false} AfterSeen<T>(s: seq<T>, limit: nat, seen: nat, at: int)
    requires seen < |s|
    requires at == var dropped := |s| - |Last(s, limit)|; if seen >= dropped then seen - dropped else -1
    ensures Last(s, limit)[at + 1..] == Last(s[seen + 1..], limit)
  {
    var dropped := |s| - |Last(s, limit)|;
    LastIsDrop(s, limit);
    LastIsDrop(s[seen + 1..], limit);
    if seen >= dropped {
      SliceTwice(s, dropped, at + 1);
      SliceTwice(s, seen + 1, 0);
    } else {
      SliceTwice(s, seen + 1, dropped - seen - 1);
      SliceTwice(s, dropped, 0);
    }
  }

  lemma LastIsDrop<T>(s: seq<T>, n: nat)
    ensures Last(s, n) == s[|s| - |Last(s, n)|..]
    ensures |Last(s, n)| == if |s| <= n then |s| else n
  {
  }

  lemma SliceTwice<T>(s: seq<T>, i: nat, j: nat)
    requires i + j <= |s|
    ensures s[i..][j..] == s[i + j..]
  {
  }

  lemma {:induction false} FoundWhereKept(published: seq<StreamEvent>, limit: nat, seen: nat)
    requires UniqueIds(published) && seen < |published|
    ensures var history := Last(published, limit); var dropped := |published| - |history|;
      FindId(history, published[seen].id) == if seen >= dropped then seen - dropped else -1
  {
    var history := Last(published, limit);
    var dropped := |published| - |history|;
    var at := FindId(history, published[seen].id);
    if seen >= dropped {
      KeptAt(published, limit, seen - dropped);
    }
    if at >= 0 {
      KeptAt(published, limit, at);
      assert dropped + at < seen ==> Differ(published, dropped + at, seen);
      assert seen < dropped + at ==> Differ(published, seen, dropped + at);
    }
  }

  lemma KeptAt(published: seq<StreamEvent>, limit: nat, i: nat)
    requires i < |Last(published, limit)|
    ensures Last(published, limit)[i] == published[|published| - |Last(published, limit)| + i]
  {
  }
}
