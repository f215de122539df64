/** Records, id indexes and vectors of `PersistentMemoryEngine` (`memory-engine.ts`, `vector-memory.ts`). */
module MemoryModel {
  import opened Prelude
  import opened Sorting

  type Id = string
  type Namespace = string
  type Vector = seq<real>

  // Storage keys.

  datatype Slot = RecordSlot(namespace: Namespace, id: Id) | IndexSlot(namespace: Namespace)

  predicate ValidNamespace(namespace: Namespace) {
    ValidName(namespace, 128)
  }

  function KeyOf(slot: Slot): string {
    "memory:" + (slot.namespace + (":" + Suffix(slot)))
  }

  function Suffix(slot: Slot): string {
    match slot
    case RecordSlot(_, id) => "record:" + id
    case IndexSlot(_) => "__index__"
  }

  lemma SplitAtColon(a: string, x: string, b: string, y: string)
    requires ':' !in a && ':' !in b && a + (":" + x) == b + (":" + y)
    ensures a == b && x == y
  {
    var whole := a + (":" + x);
    assert whole[|a|] == ':' && whole[|b|] == ':';
    assert whole[..|a|] == a && whole[..|b|] == b;
    assert whole[|a| + 1..] == x && whole[|b| + 1..] == y;
  }

  /** Record and index keys of all namespaces never collide, because a namespace contains no colon. */
  lemma {:induction false} KeysNeverCollide(s: Slot, t: Slot)
    requires ValidNamespace(s.namespace) && ValidNamespace(t.namespace) && KeyOf(s) == KeyOf(t)
    ensures s == t
  {
    assert ':' !in s.namespace && ':' !in t.namespace;
    assert KeyOf(s)[7..] == s.namespace + (":" + Suffix(s)) && KeyOf(t)[7..] == t.namespace + (":" + Suffix(t));
    SplitAtColon(s.namespace, Suffix(s), t.namespace, Suffix(t));
    assert Suffix(s)[0] == (if s.RecordSlot? then 'r' else '_') && Suffix(t)[0] == (if t.RecordSlot? then 'r' else '_');
    if s.RecordSlot? {
      assert Suffix(s)[7..] == s.id && Suffix(t)[7..] == t.id;
    }
  }

  // Values.

  datatype Address = Address(namespace: Namespace, id: Id)

  datatype Record = Record(id: Id, namespace: Namespace, content: string, importance: real,
                           lastAccessed: int, accessCount: nat, expiresAt: Option<int>, embedding: Vector)

  datatype VectorEntry = VectorEntry(namespace: Namespace, vector: Vector)

  /** The store's record and index entries, and the vector index, which is keyed by id alone. */
  datatype Memory = Memory(records: map<Address, Record>, indexes: map<Namespace, seq<Id>>, vectors: map<Id, VectorEntry>)

  /** `readIndex` */
  function Ids(m: Memory, namespace: Namespace): seq<Id> {
    if namespace in m.indexes then m.indexes[namespace] else []
  }

  /** `store.set`, `addToIndex` */
  function Inserted(m: Memory, r: Record): Memory {
    var ids := Ids(m, r.namespace);
    m.(records := m.records[Address(r.namespace, r.id) := r],
       indexes := if r.id in ids then m.indexes else m.indexes[r.namespace := ids + [r.id]])
  }

  function Upserted(m: Memory, r: Record): Memory {
    m.(vectors := m.vectors[r.id := VectorEntry(r.namespace, r.embedding)])
  }

  function WithoutId(ids: seq<Id>, id: Id): seq<Id> {
    Filter(ids, (x: Id) => x != id)
  }

  /** `forget`: record, index entry and vector go. */
  function Forgotten(m: Memory, namespace: Namespace, id: Id): Memory {
    var ids := Ids(m, namespace);
    Memory(m.records - {Address(namespace, id)},
           if id in ids then m.indexes[namespace := WithoutId(ids, id)] else m.indexes,
           m.vectors - {id})
  }

  function ForgottenAll(m: Memory, namespace: Namespace, ids: seq<Id>): Memory
    decreases |ids|
  {
    if ids == [] then m else ForgottenAll(Forgotten(m, namespace, ids[0]), namespace, ids[1..])
  }

  predicate Recorded(m: Memory, namespace: Namespace, id: Id) {
    Address(namespace, id) in m.records
  }

  predicate Agrees(m: Memory, namespace: Namespace, id: Id) {
    && (Recorded(m, namespace, id) <==> id in Ids(m, namespace))
    && (Recorded(m, namespace, id) ==> m.records[Address(namespace, id)].id == id && m.records[Address(namespace, id)].namespace == namespace)
  }

  /** In each namespace the id list is duplicate-free and names exactly the stored records. */
  ghost predicate Indexed(m: Memory) {
    && (forall namespace {:trigger Ids(m, namespace)} :: Distinct(Ids(m, namespace)))
    && forall namespace, id {:trigger Agrees(m, namespace, id)} :: Agrees(m, namespace, id)
  }

  /** The vector index has what a record says, and nothing else. */
  predicate VectorAgrees(m: Memory, namespace: Namespace, id: Id) {
    Recorded(m, namespace, id) ==> id in m.vectors && m.vectors[id] == VectorEntry(namespace, m.records[Address(namespace, id)].embedding)
  }

  ghost predicate VectorsAgree(m: Memory) {
    && (forall namespace, id {:trigger VectorAgrees(m, namespace, id)} :: VectorAgrees(m, namespace, id))
    && forall id :: id in m.vectors ==> Recorded(m, m.vectors[id].namespace, id)
  }

  /** No other namespace has a record of that id. */
  ghost predicate Unshared(m: Memory, namespace: Namespace, id: Id) {
    forall other :: Recorded(m, other, id) ==> other == namespace
  }

  lemma InsertKeepsIndexed(m: Memory, r: Record)
    requires Indexed(m)
    ensures Indexed(Inserted(m, r))
  {
    var t := Inserted(m, r);
    forall namespace
      ensures Distinct(Ids(t, namespace))
    {
      assert Distinct(Ids(m, namespace));
    }
    forall namespace, id
      ensures Agrees(t, namespace, id)
    {
      assert Agrees(m, namespace, id);
    }
  }

  lemma SameIndexed(m: Memory, t: Memory)
    requires Indexed(m) && t.records == m.records && t.indexes == m.indexes
    ensures Indexed(t)
  {
    forall namespace
      ensures Distinct(Ids(t, namespace))
    {
      assert Distinct(Ids(m, namespace));
    }
    forall namespace, id
      ensures Agrees(t, namespace, id)
    {
      assert Agrees(m, namespace, id);
    }
  }

  lemma ForgetKeepsIndexed(m: Memory, namespace: Namespace, id: Id)
    requires Indexed(m)
    ensures Indexed(Forgotten(m, namespace, id))
  {
    var t := Forgotten(m, namespace, id);
    forall other
      ensures Distinct(Ids(t, other))
    {
      FilterDistinct(Ids(m, other), (x: Id) => x != id);
    }
    forall other, x
      ensures Agrees(t, other, x)
    {
      assert Agrees(m, other, x);
    }
  }

  /** Remembering keeps the vector index in step exactly when no other namespace uses the id. */
  lemma {:induction false} RememberKeepsVectorsIff(m: Memory, r: Record)
    requires Indexed(m) && VectorsAgree(m)
    ensures VectorsAgree(Upserted(Inserted(m, r), r)) <==> Unshared(m, r.namespace, r.id)
  {
    var t := Upserted(Inserted(m, r), r);
    if Unshared(m, r.namespace, r.id) {
      forall namespace, id
        ensures VectorAgrees(t, namespace, id)
      {
        assert VectorAgrees(m, namespace, id);
      }
      forall id | id in t.vectors
        ensures Recorded(t, t.vectors[id].namespace, id)
      {
        assert id != r.id ==> Recorded(m, m.vectors[id].namespace, id);
      }
    } else {
      var other :| Recorded(m, other, r.id) && other != r.namespace;
      assert Recorded(t, other, r.id) && !VectorAgrees(t, other, r.id);
    }
  }

  /** Forgetting keeps the vector index in step exactly when no other namespace uses the id. */
  lemma {:induction false} ForgetKeepsVectorsIff(m: Memory, namespace: Namespace, id: Id)
    requires Indexed(m) && VectorsAgree(m)
    ensures VectorsAgree(Forgotten(m, namespace, id)) <==> Unshared(m, namespace, id)
  {
    var t := Forgotten(m, namespace, id);
    if Unshared(m, namespace, id) {
      forall other, x
        ensures VectorAgrees(t, other, x)
      {
        assert VectorAgrees(m, other, x);
      }
      forall x | x in t.vectors
        ensures Recorded(t, t.vectors[x].namespace, x)
      {
        assert Recorded(m, m.vectors[x].namespace, x);
      }
    } else {
      var other :| Recorded(m, other, id) && other != namespace;
      assert Recorded(t, other, id) && !VectorAgrees(t, other, id);
    }
  }

  /** A record in an agreeing memory shares its id with no other namespace. */
  lemma RecordedUnshared(m: Memory, namespace: Namespace, id: Id)
    requires VectorsAgree(m) && Recorded(m, namespace, id)
    ensures Unshared(m, namespace, id)
  {
    assert VectorAgrees(m, namespace, id);
    forall other | Recorded(m, other, id)
      ensures other == namespace
    {
      assert VectorAgrees(m, other, id);
    }
  }

  // Eviction.

  predicate RankedBelow(a: Record, b: Record) {
    a.importance < b.importance || (a.importance == b.importance && a.lastAccessed < b.lastAccessed)
  }

  function NotAbove(a: Record, b: Record): bool {
    !RankedBelow(b, a)
  }

  /** `loadNamespace` with expired records included: ids without a record are skipped. */
  function Loaded(m: Memory, namespace: Namespace, ids: seq<Id>): seq<Record> {
    if ids == [] then []
    else
      var rest := Loaded(m, namespace, ids[1..]);
      if Address(namespace, ids[0]) in m.records then [m.records[Address(namespace, ids[0])]] + rest else rest
  }

  lemma {:induction false} LoadedAll(m: Memory, namespace: Namespace, ids: seq<Id>)
    requires Indexed(m) && forall id :: id in ids ==> id in Ids(m, namespace)
    ensures |Loaded(m, namespace, ids)| == |ids|
    ensures forall i :: 0 <= i < |ids| ==> Recorded(m, namespace, ids[i]) && Loaded(m, namespace, ids)[i] == m.records[Address(namespace, ids[i])]
    ensures forall i :: 0 <= i < |ids| ==> Loaded(m, namespace, ids)[i].id == ids[i]
  {
    if ids == [] {
    } else {
      assert Agrees(m, namespace, ids[0]);
      LoadedAll(m, namespace, ids[1..]);
    }
  }

  function IdsOf(records: seq<Record>): (ids: seq<Id>)
    ensures |ids| == |records| && forall i :: 0 <= i < |ids| ==> ids[i] == records[i].id
  {
    seq(|records|, i requires 0 <= i < |records| => records[i].id)
  }

  /** What `enforceCapacity` prunes: the records that rank lowest by importance, then by last access. */
  function Excess(records: seq<Record>, capacity: nat): seq<Record> {
    if |records| <= capacity then [] else SortBy(records, NotAbove)[..|records| - capacity]
  }

  lemma PrefixBefore(ordered: seq<Record>, n: nat, e: Record, s: Record)
    requires Ordered(ordered, NotAbove) && n <= |ordered| && e in ordered[..n] && s in ordered && s !in ordered[..n]
    ensures NotAbove(e, s)
  {
    var i :| 0 <= i < n && ordered[i] == e;
    assert ordered == ordered[..n] + ordered[n..];
    var j :| n <= j < |ordered| && ordered[j] == s;
  }

  lemma ExcessRanksLowest(records: seq<Record>, capacity: nat)
    requires Distinct(records)
    ensures var excess := Excess(records, capacity);
      Distinct(excess) && (forall r :: r in excess ==> r in records)
      && |excess| == (if |records| > capacity then |records| - capacity else 0)
      && forall e, s :: e in excess && s in records && s !in excess ==> !RankedBelow(s, e)
  {
    var ordered, excess := SortBy(records, NotAbove), Excess(records, capacity);
    assert Ranks(records, NotAbove);
    SortOrders(records, NotAbove);
    if |records| > capacity {
      forall e, s | e in excess && s in records && s !in excess
        ensures !RankedBelow(s, e)
      {
        PrefixBefore(ordered, |excess|, e, s);
      }
    }
  }

  function Enforced(m: Memory, namespace: Namespace, capacity: nat): Memory {
    ForgottenAll(m, namespace, IdsOf(Excess(Loaded(m, namespace, Ids(m, namespace)), capacity)))
  }

  /** After forgetting some ids of a namespace, everything else is as it was. */
  ghost predicate OnlyWithout(m: Memory, t: Memory, namespace: Namespace, gone: set<Id>) {
    && (forall other :: other != namespace ==> Ids(t, other) == Ids(m, other))
    && (forall id :: id in Ids(t, namespace) <==> id in Ids(m, namespace) && id !in gone)
    && (forall a: Address :: a in t.records <==> a in m.records && !(a.namespace == namespace && a.id in gone))
    && forall a: Address :: a in t.records ==> t.records[a] == m.records[a]
  }

  lemma {:induction false} ForgettingAll(m: Memory, namespace: Namespace, ids: seq<Id>)
    requires Indexed(m)
    ensures Indexed(ForgottenAll(m, namespace, ids))
    ensures OnlyWithout(m, ForgottenAll(m, namespace, ids), namespace, Elements(ids))
    decreases |ids|
  {
    if ids == [] {
    } else {
      var next := Forgotten(m, namespace, ids[0]);
      ForgetKeepsIndexed(m, namespace, ids[0]);
      ForgettingAll(next, namespace, ids[1..]);
      assert Agrees(m, namespace, ids[0]);
      assert ids == [ids[0]] + ids[1..];
      assert forall id :: id in Elements(ids) <==> id == ids[0] || id in Elements(ids[1..]);
    }
  }

  lemma {:induction false} ForgettingAllKeepsVectors(m: Memory, namespace: Namespace, ids: seq<Id>)
    requires Indexed(m) && VectorsAgree(m) && Distinct(ids) && forall id :: id in ids ==> Recorded(m, namespace, id)
    ensures VectorsAgree(ForgottenAll(m, namespace, ids))
    decreases |ids|
  {
    if ids == [] {
    } else {
      RecordedUnshared(m, namespace, ids[0]);
      ForgetKeepsVectorsIff(m, namespace, ids[0]);
      ForgetKeepsIndexed(m, namespace, ids[0]);
      forall id | id in ids[1..]
        ensures Recorded(Forgotten(m, namespace, ids[0]), namespace, id)
      {
        assert id in ids && id != ids[0];
      }
      ForgettingAllKeepsVectors(Forgotten(m, namespace, ids[0]), namespace, ids[1..]);
    }
  }

  /** A loaded record is the stored record of its id, and every id is loaded. */
  lemma LoadedIff(m: Memory, namespace: Namespace)
    requires Indexed(m)
    ensures var records := Loaded(m, namespace, Ids(m, namespace));
      Distinct(records) && |records| == |Ids(m, namespace)|
      && (forall r :: r in records ==> r.id in Ids(m, namespace) && Stored(m, namespace, r.id, r))
      && forall id :: id in Ids(m, namespace) ==> Recorded(m, namespace, id) && m.records[Address(namespace, id)] in records
  {
    var ids := Ids(m, namespace);
    var records := Loaded(m, namespace, ids);
    LoadedAll(m, namespace, ids);
    assert Distinct(ids);
    forall i, j | 0 <= i < j < |records|
      ensures records[i] != records[j]
    {
      assert records[i].id == ids[i] && records[j].id == ids[j];
    }
    forall id | id in ids
      ensures Recorded(m, namespace, id) && m.records[Address(namespace, id)] in records
    {
      var i :| 0 <= i < |ids| && ids[i] == id;
      assert records[i] in records;
    }
  }

  predicate Stored(m: Memory, namespace: Namespace, id: Id, r: Record) {
    Recorded(m, namespace, id) && m.records[Address(namespace, id)] == r
  }

  /** `gone` brings the namespace down to its capacity, and nothing that stays ranks below anything that goes. */
  ghost predicate EvictsLowest(m: Memory, namespace: Namespace, capacity: nat, gone: set<Id>) {
    var ids := Ids(m, namespace);
    && (forall e :: e in gone ==> e in ids && Recorded(m, namespace, e))
    && |gone| == (if |ids| > capacity then |ids| - capacity else 0)
    && forall e, s :: e in gone && s !in gone && Recorded(m, namespace, e) && Recorded(m, namespace, s) ==>
      !RankedBelow(m.records[Address(namespace, s)], m.records[Address(namespace, e)])
  }

  lemma ExcessIds(m: Memory, namespace: Namespace, capacity: nat)
    requires Indexed(m)
    ensures var excess := IdsOf(Excess(Loaded(m, namespace, Ids(m, namespace)), capacity));
      Distinct(excess) && EvictsLowest(m, namespace, capacity, Elements(excess))
  {
    var records := Loaded(m, namespace, Ids(m, namespace));
    var out := Excess(records, capacity);
    var excess := IdsOf(out);
    LoadedIff(m, namespace);
    ExcessRanksLowest(records, capacity);
    forall i, j | 0 <= i < j < |excess|
      ensures excess[i] != excess[j]
    {
      assert out[i] in out && out[j] in out && out[i] != out[j];
      assert Stored(m, namespace, out[i].id, out[i]) && Stored(m, namespace, out[j].id, out[j]);
    }
    DistinctSize(excess);
    forall e | e in excess
      ensures e in Ids(m, namespace) && Recorded(m, namespace, e) && m.records[Address(namespace, e)] in out
    {
      var i :| 0 <= i < |excess| && excess[i] == e;
      assert out[i] in out && Stored(m, namespace, out[i].id, out[i]);
    }
    forall s | s !in excess && Recorded(m, namespace, s)
      ensures m.records[Address(namespace, s)] in records && m.records[Address(namespace, s)] !in out
    {
      assert Agrees(m, namespace, s);
      assert m.records[Address(namespace, s)].id == s;
      assert forall i :: 0 <= i < |out| ==> excess[i] == out[i].id && excess[i] in excess;
    }
  }

  /** Forgetting listed ids shortens the list by just those. */
  lemma {:induction false} ForgettingCounts(m: Memory, namespace: Namespace, ids: seq<Id>)
    requires Indexed(m) && Distinct(ids) && forall id :: id in ids ==> id in Ids(m, namespace)
    ensures |Ids(ForgottenAll(m, namespace, ids), namespace)| == |Ids(m, namespace)| - |ids|
  {
    ForgettingAll(m, namespace, ids);
    var before, after, gone := Ids(m, namespace), Ids(ForgottenAll(m, namespace, ids), namespace), Elements(ids);
    assert Distinct(before) && Distinct(after);
    DistinctSize(before);
    DistinctSize(after);
    DistinctSize(ids);
    assert Elements(after) == Elements(before) - gone;
    assert gone <= Elements(before);
  }

  /** Within its capacity a namespace is left alone. */
  lemma EnforceNothing(m: Memory, namespace: Namespace, capacity: nat)
    requires Indexed(m) && |Ids(m, namespace)| <= capacity
    ensures Enforced(m, namespace, capacity) == m
  {
    LoadedIff(m, namespace);
  }

  /** Enforcing the capacity: how many records stay, which, and that nothing else changes. */
  lemma {:induction false} EnforcementEvictsLowest(m: Memory, namespace: Namespace, capacity: nat) returns (gone: set<Id>)
    requires Indexed(m)
    ensures EvictsLowest(m, namespace, capacity, gone) && OnlyWithout(m, Enforced(m, namespace, capacity), namespace, gone)
    ensures Indexed(Enforced(m, namespace, capacity))
    ensures |Ids(Enforced(m, namespace, capacity), namespace)| == if |Ids(m, namespace)| > capacity then capacity else |Ids(m, namespace)|
    ensures VectorsAgree(m) ==> VectorsAgree(Enforced(m, namespace, capacity))
  {
    var excess := IdsOf(Excess(Loaded(m, namespace, Ids(m, namespace)), capacity));
    ExcessIds(m, namespace, capacity);
    gone := Elements(excess);
    ForgettingAll(m, namespace, excess);
    assert forall e :: e in excess ==> e in gone;
    if VectorsAgree(m) {
      ForgettingAllKeepsVectors(m, namespace, excess);
    }
    ForgettingCounts(m, namespace, excess);
    DistinctSize(excess);
  }
}
