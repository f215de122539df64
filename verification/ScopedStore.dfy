/** `ScopedKeyValueStore`: one scope's keys in a shared store behave like a private store. */
module ScopedStore {
  import opened Prelude
  import opened KeyValueStore
  import opened Pages

  type Scope = string

  function Prefix(scope: Scope): Key {
    scope + ":"
  }

  function Scoped(scope: Scope, key: Key): Key {
    Prefix(scope) + key
  }

  /** `key.slice(scope.length + 1)` */
  function Unscoped(scope: Scope, key: Key): Key {
    if |scope| + 1 <= |key| then key[|scope| + 1..] else ""
  }

  lemma ScopedUnscoped(scope: Scope, key: Key)
    ensures Unscoped(scope, Scoped(scope, key)) == key && Prefix(scope) <= Scoped(scope, key)
  {
    assert Scoped(scope, key)[|scope| + 1..] == key;
  }

  lemma UnscopedScoped(scope: Scope, full: Key)
    requires Prefix(scope) <= full
    ensures Scoped(scope, Unscoped(scope, full)) == full
  {
    assert full == full[..|scope| + 1] + full[|scope| + 1..];
  }

  /** A store seen through a renaming of keys. */
  ghost predicate IsView(view: Values, values: Values, rename: Key -> Key) {
    forall k {:trigger Lookup(view, k)} :: Lookup(view, k) == Renamed(k, Lookup(values, rename(k)))
  }

  function Renamed(key: Key, stored: Option<Stored>): Option<Stored> {
    if stored.Some? then Some(stored.value.(key := key)) else None
  }

  ghost predicate Injective(rename: Key -> Key) {
    forall j, k :: rename(j) == rename(k) ==> j == k
  }

  lemma UpdateCommutes(view: Values, values: Values, rename: Key -> Key, key: Key, entry: Entry)
    requires IsView(view, values, rename) && Injective(rename)
    ensures IsView(view[key := entry], values[rename(key) := entry], rename)
    ensures IsView(view - {key}, values - {rename(key)}, rename)
  {
    forall k
      ensures Lookup(view[key := entry], k) == Renamed(k, Lookup(values[rename(key) := entry], rename(k)))
      ensures Lookup(view - {key}, k) == Renamed(k, Lookup(values - {rename(key)}, rename(k)))
    {
      assert Lookup(view, k) == Renamed(k, Lookup(values, rename(k)));
      assert rename(k) == rename(key) ==> k == key;
    }
  }

  /** Equal entries under two names: an operation has the same outcome on both, and writes the same entry. */
  lemma OutcomesCommute(view: Values, values: Values, invalid: Key -> bool, op: Operation, sharedInvalid: Key -> bool, shared: Operation)
    requires shared == op.(key := shared.key) && invalid(op.key) == sharedInvalid(shared.key)
    requires Lookup(view, op.key) == Renamed(op.key, Lookup(values, shared.key))
    ensures var outcome := Perform(sharedInvalid, values, shared).1;
      Perform(invalid, view, op).1 == if outcome.Written? then Written(outcome.entry.(key := op.key)) else outcome
  {
  }

  /** How an operation changes the values, told by its outcome. */
  lemma ValuesByOutcome(values: Values, invalid: Key -> bool, op: Operation)
    ensures var (after, outcome) := Perform(invalid, values, op);
      match outcome
      case Written(stored) => after == values[op.key := Entry(stored.value, stored.version)]
      case Removed(_) => after == values - {op.key}
      case Rejected(_) => after == values
  {
  }

  /** Under an injective renaming, a store operation and its view commute. */
  lemma {:induction false} OperationCommutes(view: Values, values: Values, rename: Key -> Key, invalid: Key -> bool, op: Operation,
                                             sharedInvalid: Key -> bool, shared: Operation)
    requires IsView(view, values, rename) && Injective(rename)
    requires shared == op.(key := rename(op.key)) && invalid(op.key) == sharedInvalid(shared.key)
    ensures IsView(Perform(invalid, view, op).0, Perform(sharedInvalid, values, shared).0, rename)
  {
    assert Lookup(view, op.key) == Renamed(op.key, Lookup(values, shared.key));
    OutcomesCommute(view, values, invalid, op, sharedInvalid, shared);
    ValuesByOutcome(view, invalid, op);
    ValuesByOutcome(values, sharedInvalid, shared);
    match Perform(invalid, view, op).1 {
      case Written(stored) => UpdateCommutes(view, values, rename, op.key, Entry(stored.value, stored.version));
      case Removed(_) => UpdateCommutes(view, values, rename, op.key, Entry("", 0));
      case Rejected(_) =>
    }
  }

  lemma ViewUnique(view: Values, other: Values, values: Values, rename: Key -> Key)
    requires IsView(view, values, rename) && IsView(other, values, rename)
    ensures view == other
  {
    forall k
      ensures k in view <==> k in other
      ensures k in view ==> view[k] == other[k]
    {
      assert Lookup(view, k) == Lookup(other, k);
    }
  }

  function Renaming(scope: Scope): Key -> Key {
    key => Scoped(scope, key)
  }

  lemma RenamingInjective(scope: Scope)
    ensures Injective(Renaming(scope))
  {
    forall j, k | Renaming(scope)(j) == Renaming(scope)(k)
      ensures j == k
    {
      ScopedUnscoped(scope, j);
      ScopedUnscoped(scope, k);
    }
  }

  /** The private store that a scope stands for. */
  ghost function View(values: Values, scope: Scope): (view: Values)
    ensures IsView(view, values, Renaming(scope))
  {
    var keys := set full | full in values && Prefix(scope) <= full :: Unscoped(scope, full);
    assert forall k :: k in keys <==> Scoped(scope, k) in values by {
      forall k
        ensures k in keys <==> Scoped(scope, k) in values
      {
        ScopedUnscoped(scope, k);
        if k in keys {
          var full :| full in values && Prefix(scope) <= full && Unscoped(scope, full) == k;
          UnscopedScoped(scope, full);
        }
      }
    }
    map k | k in keys :: values[Scoped(scope, k)]
  }

  /** The keys the private store rejects: the length and blankness checks see the scope as part of the key. */
  function PrivateInvalid(scope: Scope): Key -> bool {
    key => InvalidKey(Scoped(scope, key))
  }

  function ScopedOperation(scope: Scope, op: Operation): Operation {
    op.(key := Scoped(scope, op.key))
  }

  function UnscopedEntry(scope: Scope, stored: Stored): Stored {
    stored.(key := Unscoped(scope, stored.key))
  }

  function UnscopedOutcome(scope: Scope, outcome: Outcome): Outcome {
    if outcome.Written? then Written(UnscopedEntry(scope, outcome.entry)) else outcome
  }

  /** A scoped read sees what the private store holds. */
  lemma ReadAgrees(values: Values, scope: Scope, key: Key)
    ensures var shared := Lookup(values, Scoped(scope, key));
      Lookup(View(values, scope), key) == if shared.Some? then Some(UnscopedEntry(scope, shared.value)) else None
  {
    ScopedUnscoped(scope, key);
    assert Lookup(View(values, scope), key) == Renamed(key, Lookup(values, Renaming(scope)(key)));
  }

  /** A scoped write or delete has the outcome it has on the private store. */
  lemma OutcomeAgrees(values: Values, scope: Scope, op: Operation)
    ensures UnscopedOutcome(scope, Do(values, ScopedOperation(scope, op)).1) == Perform(PrivateInvalid(scope), View(values, scope), op).1
  {
    var view := View(values, scope);
    ScopedUnscoped(scope, op.key);
    assert Lookup(view, op.key) == Renamed(op.key, Lookup(values, Renaming(scope)(op.key)));
    OutcomesCommute(view, values, PrivateInvalid(scope), op, InvalidKey, ScopedOperation(scope, op));
  }

  /** A scoped write or delete has the effect it has on the private store. */
  lemma EffectAgrees(values: Values, scope: Scope, op: Operation)
    ensures View(Do(values, ScopedOperation(scope, op)).0, scope) == Perform(PrivateInvalid(scope), View(values, scope), op).0
  {
    var view, after := View(values, scope), Do(values, ScopedOperation(scope, op)).0;
    RenamingInjective(scope);
    OperationCommutes(view, values, Renaming(scope), PrivateInvalid(scope), op, InvalidKey, ScopedOperation(scope, op));
    ViewUnique(View(after, scope), Perform(PrivateInvalid(scope), view, op).0, after, Renaming(scope));
  }

  ghost predicate Disjoint(a: Scope, b: Scope) {
    forall j, k :: Scoped(a, j) != Scoped(b, k)
  }

  /** Two scopes never share a key exactly when neither prefix extends the other. */
  lemma {:induction false} DisjointIff(a: Scope, b: Scope)
    ensures Disjoint(a, b) <==> !(Prefix(a) <= Prefix(b)) && !(Prefix(b) <= Prefix(a))
  {
    if Prefix(a) <= Prefix(b) {
      UnscopedScoped(a, Prefix(b));
      assert Scoped(a, Unscoped(a, Prefix(b))) == Scoped(b, "");
    }
    if Prefix(b) <= Prefix(a) {
      UnscopedScoped(b, Prefix(a));
      assert Scoped(b, Unscoped(b, Prefix(a))) == Scoped(a, "");
    }
    forall j, k | Scoped(a, j) == Scoped(b, k)
      ensures Prefix(a) <= Prefix(b) || Prefix(b) <= Prefix(a)
    {
      var shared := Scoped(a, j);
      assert shared[..|Prefix(a)|] == Prefix(a) && shared[..|Prefix(b)|] == Prefix(b);
    }
  }

  /** In particular different scopes without a colon. */
  lemma {:induction false} ColonFreeDisjoint(a: Scope, b: Scope)
    requires a != b && ':' !in a && ':' !in b
    ensures Disjoint(a, b)
  {
    DisjointIff(a, b);
    assert Prefix(a)[|a|] == ':' && Prefix(b)[|b|] == ':';
    assert Prefix(a)[..|a|] == a && Prefix(b)[..|b|] == b;
  }

  /** Disjoint scopes do not see each other's operations. */
  lemma ScopesIsolated(values: Values, a: Scope, b: Scope, op: Operation)
    requires Disjoint(a, b)
    ensures View(Do(values, ScopedOperation(a, op)).0, b) == View(values, b)
  {
    var after := Do(values, ScopedOperation(a, op)).0;
    var rename := Renaming(b);
    forall k
      ensures Lookup(View(values, b), k) == Renamed(k, Lookup(after, rename(k)))
    {
      assert Scoped(a, op.key) != Scoped(b, k);
      assert Lookup(View(values, b), k) == Renamed(k, Lookup(values, rename(k)));
    }
    ViewUnique(View(after, b), View(values, b), after, rename);
  }

  // Listing.

  function UnscopedAll(scope: Scope, items: seq<Stored>): (r: seq<Stored>)
    ensures |r| == |items|
  {
    seq(|items|, i requires 0 <= i < |items| => UnscopedEntry(scope, items[i]))
  }

  function ScopedAll(scope: Scope, keys: seq<Key>): (r: seq<Key>)
    ensures |r| == |keys|
  {
    seq(|keys|, i requires 0 <= i < |keys| => Scoped(scope, keys[i]))
  }

  function ScopedCursor(scope: Scope, cursor: Option<Key>): Option<Key> {
    if cursor.Some? then Some(Scoped(scope, cursor.value)) else None
  }

  function UnscopedPage(scope: Scope, page: Page): Page {
    Page(UnscopedAll(scope, page.items), if page.nextCursor.Some? then Some(Unscoped(scope, page.nextCursor.value)) else None)
  }

  ghost function ScopedList(values: Values, scope: Scope, prefix: Key, limit: Option<int>, cursor: Option<Key>): Result<Page> {
    match ListPage(values, Scoped(scope, prefix), limit, ScopedCursor(scope, cursor))
    case Err(error) => Err(error)
    case Ok(page) => Ok(UnscopedPage(scope, page))
  }

  lemma {:induction false} BelowUnderPrefix(prefix: Key, a: Key, b: Key)
    ensures Below(prefix + a, prefix + b) <==> Below(a, b)
  {
    if prefix == [] {
      assert prefix + a == a && prefix + b == b;
    } else {
      BelowUnderPrefix(prefix[1..], a, b);
      assert (prefix + a)[1..] == prefix[1..] + a && (prefix + b)[1..] == prefix[1..] + b;
    }
  }

  /** The shared listing sorts the scope's keys as the private store would. */
  lemma SortedUnderScope(values: Values, scope: Scope, prefix: Key)
    ensures Sorted(Matching(values, Scoped(scope, prefix))) == ScopedAll(scope, Sorted(Matching(View(values, scope), prefix)))
  {
    var shared, private := Matching(values, Scoped(scope, prefix)), Matching(View(values, scope), prefix);
    var keys := Sorted(private);
    var scoped := ScopedAll(scope, keys);
    forall i: nat, j: nat | i < j < |keys|
      ensures InOrder(scoped, i, j)
    {
      assert InOrder(keys, i, j);
      BelowUnderPrefix(Prefix(scope), keys[i], keys[j]);
    }
    forall full
      ensures full in shared <==> Prefix(scope) <= full && Unscoped(scope, full) in Elements(keys)
    {
      MatchingUnderScope(values, scope, prefix, full);
    }
    forall full | full in shared
      ensures full in Elements(scoped)
    {
      var i :| 0 <= i < |keys| && keys[i] == Unscoped(scope, full);
      UnscopedScoped(scope, full);
      assert scoped[i] == full;
    }
    forall i | 0 <= i < |keys|
      ensures scoped[i] in shared
    {
      ScopedUnscoped(scope, keys[i]);
      assert keys[i] in Elements(keys);
    }
    assert Elements(scoped) == shared;
    AscendingUnique(Sorted(shared), scoped);
  }

  lemma PrefixUnder(p: Key, q: Key, full: Key)
    ensures p + q <= full <==> p <= full && q <= full[|p|..]
  {
    if p + q <= full {
      assert full[..|p|] == (p + q)[..|p|] == p;
      assert full[|p|..][..|q|] == (p + q)[|p|..] == q;
    }
    if p <= full {
      assert full == p + full[|p|..];
    }
  }

  lemma MatchingUnderScope(values: Values, scope: Scope, prefix: Key, full: Key)
    ensures full in Matching(values, Scoped(scope, prefix)) <==>
      Prefix(scope) <= full && Unscoped(scope, full) in Matching(View(values, scope), prefix)
  {
    PrefixUnder(Prefix(scope), prefix, full);
    if Prefix(scope) <= full {
      UnscopedScoped(scope, full);
      var k := Unscoped(scope, full);
      assert Lookup(View(values, scope), k) == Renamed(k, Lookup(values, Renaming(scope)(k)));
    }
  }

  lemma {:induction false} FindAboveUnderPrefix(scope: Scope, keys: seq<Key>, cursor: Key)
    ensures FindAbove(ScopedAll(scope, keys), Scoped(scope, cursor)) == FindAbove(keys, cursor)
  {
    if keys == [] {
    } else {
      BelowUnderPrefix(Prefix(scope), cursor, keys[0]);
      FindAboveUnderPrefix(scope, keys[1..], cursor);
      assert ScopedAll(scope, keys)[1..] == ScopedAll(scope, keys[1..]);
    }
  }

  lemma {:induction false} ItemsUnderScope(values: Values, scope: Scope, keys: seq<Key>)
    ensures UnscopedAll(scope, Items(values, ScopedAll(scope, keys))) == Items(View(values, scope), keys)
  {
    if keys == [] {
    } else {
      ItemsUnderScope(values, scope, keys[1..]);
      ReadAgrees(values, scope, keys[0]);
      FirstItem(values, scope, keys);
    }
  }

  lemma FirstItem(values: Values, scope: Scope, keys: seq<Key>)
    requires keys != []
    ensures var stored, rest := Lookup(values, Scoped(scope, keys[0])), Items(values, ScopedAll(scope, keys[1..]));
      UnscopedAll(scope, Items(values, ScopedAll(scope, keys)))
      == (if stored.Some? then [UnscopedEntry(scope, stored.value)] else []) + UnscopedAll(scope, rest)
  {
    assert ScopedAll(scope, keys)[1..] == ScopedAll(scope, keys[1..]);
  }

  lemma SelectedUnderScope(scope: Scope, keys: seq<Key>, limit: nat, start: nat)
    requires limit >= 1 && start <= |keys|
    ensures Selected(ScopedAll(scope, keys), limit, start) == ScopedAll(scope, Selected(keys, limit, start))
  {
  }

  lemma NextCursorUnderScope(scope: Scope, keys: seq<Key>, limit: nat, start: nat)
    requires limit >= 1 && start <= |keys|
    ensures NextCursor(ScopedAll(scope, keys), limit, start) == ScopedCursor(scope, NextCursor(keys, limit, start))
  {
  }

  /** Renaming the keys of a page renames the page. */
  lemma PageUnderScope(values: Values, scope: Scope, keys: seq<Key>, limit: nat, start: nat)
    requires limit >= 1 && start <= |keys|
    ensures UnscopedPage(scope, PageFrom(values, ScopedAll(scope, keys), limit, start)) == PageFrom(View(values, scope), keys, limit, start)
  {
    SelectedUnderScope(scope, keys, limit, start);
    NextCursorUnderScope(scope, keys, limit, start);
    ItemsUnderScope(values, scope, Selected(keys, limit, start));
    var last := NextCursor(keys, limit, start);
    if last.Some? {
      ScopedUnscoped(scope, last.value);
    }
  }

  lemma StartUnderScope(scope: Scope, keys: seq<Key>, cursor: Option<Key>)
    ensures Start(ScopedAll(scope, keys), ScopedCursor(scope, cursor)) == Start(keys, cursor)
  {
    if cursor.Some? {
      FindAboveUnderPrefix(scope, keys, cursor.value);
    }
  }

  /** A scoped page is the private store's page: same entries, same order, same next cursor. */
  lemma {:induction false} ListAgrees(values: Values, scope: Scope, prefix: Key, limit: Option<int>, cursor: Option<Key>)
    ensures ScopedList(values, scope, prefix, limit, cursor) == ListPage(View(values, scope), prefix, limit, cursor)
  {
    SortedUnderScope(values, scope, prefix);
    if ValidLimit(limit.GetOr(100)) {
      var keys := Sorted(Matching(View(values, scope), prefix));
      StartUnderScope(scope, keys, cursor);
      PageUnderScope(values, scope, keys, limit.GetOr(100), Start(keys, cursor));
    }
  }

  class ScopedKeyValueStore {
    const store: MemoryKeyValueStore
    const scope: Scope

    constructor (store: MemoryKeyValueStore, scope: Scope)
      ensures this.store == store && this.scope == scope
    {
      this.store := store;
      this.scope := scope;
    }

    /** The constructor's check. */
    static method Open(store: MemoryKeyValueStore, scope: Scope) returns (r: Result<ScopedKeyValueStore>)
      ensures r.Ok? <==> !Blank(scope)
      ensures r.Ok? ==> r.value.store == store && r.value.scope == scope
      ensures r.Err? ==> r.error == InvalidArgument
    {
      if Blank(scope) { return Err(InvalidArgument); }
      var scoped := new ScopedKeyValueStore(store, scope);
      return Ok(scoped);
    }

    method Get(key: Key) returns (r: Result<Option<Stored>>)
      ensures r == if PrivateInvalid(scope)(key) then Err(InvalidArgument) else Ok(Lookup(View(store.values, scope), key))
    {
      ReadAgrees(store.values, scope, key);
      var shared := store.Get(Scoped(scope, key));
      match shared {
        case Err(error) => return Err(error);
        case Ok(None) => return Ok(None);
        case Ok(Some(stored)) => return Ok(Some(UnscopedEntry(scope, stored)));
      }
    }

    method WriteBody(key: Key, value: Value, expected: Option<int>) returns (r: Outcome)
      modifies store
      ensures (View(store.values, scope), r) == Perform(PrivateInvalid(scope), View(old(store.values), scope), Write(key, value, expected))
    {
      EffectAgrees(store.values, scope, Write(key, value, expected));
      OutcomeAgrees(store.values, scope, Write(key, value, expected));
      var shared := store.WriteBody(Scoped(scope, key), value, expected);
      return UnscopedOutcome(scope, shared);
    }

    method RemoveBody(key: Key, expected: Option<int>) returns (r: Outcome)
      modifies store
      ensures (View(store.values, scope), r) == Perform(PrivateInvalid(scope), View(old(store.values), scope), Remove(key, expected))
    {
      EffectAgrees(store.values, scope, Remove(key, expected));
      OutcomeAgrees(store.values, scope, Remove(key, expected));
      r := store.RemoveBody(Scoped(scope, key), expected);
    }
  }
}
