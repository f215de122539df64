/** `PersistentMemoryEngine` (`memory-engine.ts`): its operations, each proved against the model of records, indexes and vectors. */
module MemoryEngine {
  import opened Prelude
  import opened Sorting
  import opened MemoryModel

  predicate TooLong(namespace: Namespace, id: Id) {
    |KeyOf(RecordSlot(namespace, id))| > 1024
  }

  /** The key a record is stored under, and how long it may be. */
  lemma {:induction false} RecordKeyIs(namespace: Namespace, id: Id)
    ensures KeyOf(RecordSlot(namespace, id)) == "memory:" + namespace + ":record:" + id
    ensures KeyOf(IndexSlot(namespace)) == "memory:" + namespace + ":__index__"
    ensures TooLong(namespace, id) <==> |namespace| + |id| + 15 > 1024
  {
    assert ":" + "record:" == ":record:" && ":" + "__index__" == ":__index__";
    assert KeyOf(RecordSlot(namespace, id)) == "memory:" + (namespace + (":" + ("record:" + id)));
    assert KeyOf(IndexSlot(namespace)) == "memory:" + (namespace + (":" + "__index__"));
  }

  /** The checks of `remember`, and the store's check on the record key. */
  predicate ValidInput(namespace: Namespace, id: Id, content: string, importance: real, ttl: Option<int>) {
    && ValidNamespace(namespace) && !Blank(content) && 0.0 <= importance <= 1.0
    && (ttl.Some? ==> ttl.value > 0) && !TooLong(namespace, id)
  }

  /** `InMemoryVectorMemory.upsert` throws on these. */
  predicate UpsertRejected(vectors: map<Id, VectorEntry>, id: Id, vector: Vector) {
    Blank(id) || vector == [] || exists other :: other in vectors && |vectors[other].vector| != |vector|
  }

  predicate Expired(r: Record, now: int) {
    r.expiresAt.Some? && r.expiresAt.value <= now
  }

  function Touched(r: Record, now: int): Record {
    r.(lastAccessed := now, accessCount := r.accessCount + 1)
  }

  /** `remember` once the input has been checked; rejected by the vector index, it leaves record and index behind. */
  function Remembered(m: Memory, r: Record, capacity: nat): Memory {
    if UpsertRejected(m.vectors, r.id, r.embedding) then Inserted(m, r)
    else Enforced(Upserted(Inserted(m, r), r), r.namespace, capacity)
  }

  /** `recall`: an expired record is forgotten, another is touched. */
  function Recalled(m: Memory, namespace: Namespace, id: Id, now: int): Memory {
    if !Recorded(m, namespace, id) then m
    else
      var r := m.records[Address(namespace, id)];
      if Expired(r, now) then Forgotten(m, namespace, id)
      else m.(records := m.records[Address(namespace, id) := Touched(r, now)])
  }

  predicate Found(m: Memory, namespace: Namespace, id: Id, now: int) {
    Recorded(m, namespace, id) && !Expired(m.records[Address(namespace, id)], now)
  }

  /** The record `update` stores. */
  function Changed(r: Record, content: Option<string>, importance: Option<real>, embed: string -> Vector): Record {
    r.(content := content.GetOr(r.content),
       importance := importance.GetOr(r.importance),
       embedding := if content.Some? then embed(content.value) else r.embedding)
  }

  predicate ValidImportance(importance: Option<real>) {
    importance.Some? ==> 0.0 <= importance.value <= 1.0
  }

  function Replaced(m: Memory, r: Record): Memory {
    m.(records := m.records[Address(r.namespace, r.id) := r])
  }

  /** `update`: the record has been touched by `recall` before the changes are checked and made. */
  function Updated(m: Memory, namespace: Namespace, id: Id, content: Option<string>, importance: Option<real>, now: int, embed: string -> Vector): Memory {
    var touched := Recalled(m, namespace, id, now);
    if !Found(m, namespace, id, now) || !ValidImportance(importance) then touched
    else
      var r := Changed(Touched(m.records[Address(namespace, id)], now), content, importance, embed);
      var replaced := Replaced(touched, r);
      if UpsertRejected(m.vectors, r.id, r.embedding) then replaced else Upserted(replaced, r)
  }

  /** `update` makes the change: the record is there and not expired, and the importance and the vector pass their checks. */
  predicate Accepts(m: Memory, namespace: Namespace, id: Id, content: Option<string>, importance: Option<real>, now: int, embed: string -> Vector) {
    && Found(m, namespace, id, now) && ValidImportance(importance)
    && !UpsertRejected(m.vectors, id, Changed(m.records[Address(namespace, id)], content, importance, embed).embedding)
  }

  function ExpiredIds(m: Memory, namespace: Namespace, now: int): seq<Id> {
    IdsOf(Filter(Loaded(m, namespace, Ids(m, namespace)), (r: Record) => Expired(r, now)))
  }

  lemma ForgettingExpired(m: Memory, namespace: Namespace, now: int)
    requires Indexed(m)
    ensures var stale := ExpiredIds(m, namespace, now); var t := ForgottenAll(m, namespace, stale);
      Indexed(t) && |Ids(t, namespace)| == |Ids(m, namespace)| - |stale|
  {
    var all, expired := Loaded(m, namespace, Ids(m, namespace)), (r: Record) => Expired(r, now);
    var stale := ExpiredIds(m, namespace, now);
    LoadedIff(m, namespace);
    FilterDistinct(all, expired);
    ForgettingAll(m, namespace, stale);
    StaleListed(m, namespace, Filter(all, expired));
    ForgettingCounts(m, namespace, stale);
  }

  lemma StaleListed(m: Memory, namespace: Namespace, records: seq<Record>)
    requires Distinct(records) && forall r :: r in records ==> r.id in Ids(m, namespace) && Stored(m, namespace, r.id, r)
    ensures Distinct(IdsOf(records)) && forall id :: id in IdsOf(records) ==> id in Ids(m, namespace)
  {
    var ids := IdsOf(records);
    forall i, j | 0 <= i < j < |ids|
      ensures ids[i] != ids[j]
    {
      assert records[i] in records && records[j] in records;
      assert Stored(m, namespace, ids[i], records[i]) && Stored(m, namespace, ids[j], records[j]);
    }
    assert forall i :: 0 <= i < |ids| ==> records[i] in records && ids[i] == records[i].id;
  }

  function Consolidated(m: Memory, namespace: Namespace, now: int, capacity: nat): Memory {
    Enforced(ForgottenAll(m, namespace, ExpiredIds(m, namespace, now)), namespace, capacity)
  }

  function Removed(m: Memory, namespace: Namespace, ids: seq<Id>): Memory
    decreases |ids|
  {
    if ids == [] then m
    else Removed(m.(records := m.records - {Address(namespace, ids[0])}, vectors := m.vectors - {ids[0]}), namespace, ids[1..])
  }

  function Cleared(m: Memory, namespace: Namespace): Memory {
    var t := Removed(m, namespace, Ids(m, namespace));
    t.(indexes := t.indexes - {namespace})
  }

  // What the operations do, in terms of the records' fields.

  predicate Lapsed(r: Record, now: int) {
    match r.expiresAt
    case None => false
    case Some(at) => at <= now
  }

  /** `recall` answers with the record and notes the access, or forgets a record whose time is over. */
  ghost predicate RecallsAs(m: Memory, namespace: Namespace, id: Id, now: int, r: Option<Record>, t: Memory) {
    var a := Address(namespace, id);
    if a !in m.records then r.None? && t == m
    else if Lapsed(m.records[a], now) then
      && r.None? && t.records == m.records - {a} && t.vectors == m.vectors - {id}
      && (forall x :: x in Ids(t, namespace) <==> x in Ids(m, namespace) && x != id)
      && forall other :: other != namespace ==> Ids(t, other) == Ids(m, other)
    else
      var was := m.records[a];
      && r == Some(Record(was.id, was.namespace, was.content, was.importance, now, was.accessCount + 1, was.expiresAt, was.embedding))
      && t == Memory(m.records[a := r.value], m.indexes, m.vectors)
  }

  lemma {:induction false} RecallIs(m: Memory, namespace: Namespace, id: Id, now: int)
    requires Indexed(m)
    ensures var t := Recalled(m, namespace, id, now);
      RecallsAs(m, namespace, id, now, if Found(m, namespace, id, now) then Some(t.records[Address(namespace, id)]) else None, t)
  {
    if Recorded(m, namespace, id) && Expired(m.records[Address(namespace, id)], now) {
      ForgettingAll(m, namespace, [id]);
      assert ForgottenAll(m, namespace, [id]) == Forgotten(m, namespace, id);
    }
  }

  /** The record with the changes: what is not given stays, and new content is embedded anew. */
  ghost predicate IsChanged(was: Record, content: Option<string>, importance: Option<real>, now: int, embed: string -> Vector, r: Record) {
    && r.id == was.id && r.namespace == was.namespace && r.expiresAt == was.expiresAt
    && r.lastAccessed == now && r.accessCount == was.accessCount + 1
    && (match content case None => r.content == was.content && r.embedding == was.embedding
                      case Some(c) => r.content == c && r.embedding == embed(c))
    && (match importance case None => r.importance == was.importance case Some(x) => r.importance == x)
  }

  /** `update` succeeds on a live record: it stores the changed record and its vector, and nothing else. */
  ghost predicate UpdatesAs(m: Memory, namespace: Namespace, id: Id, content: Option<string>, importance: Option<real>, now: int,
                            embed: string -> Vector, r: Record, t: Memory) {
    var a := Address(namespace, id);
    && a in m.records && !Lapsed(m.records[a], now) && IsChanged(m.records[a], content, importance, now, embed, r)
    && (importance.Some? ==> 0.0 <= importance.value <= 1.0) && !UpsertRejected(m.vectors, id, r.embedding)
    && t == Memory(m.records[a := r], m.indexes, m.vectors[id := VectorEntry(namespace, r.embedding)])
  }

  /** `update` fails: after the recall alone, or on the vector, when the changed record is stored already. */
  ghost predicate FailsAs(m: Memory, namespace: Namespace, id: Id, content: Option<string>, importance: Option<real>, now: int,
                          embed: string -> Vector, t: Memory) {
    var a := Address(namespace, id);
    if a !in m.records || Lapsed(m.records[a], now) then RecallsAs(m, namespace, id, now, None, t)
    else if importance.Some? && !(0.0 <= importance.value <= 1.0) then
      t == Memory(m.records[a := m.records[a].(lastAccessed := now, accessCount := m.records[a].accessCount + 1)], m.indexes, m.vectors)
    else
      && a in t.records && IsChanged(m.records[a], content, importance, now, embed, t.records[a]) && UpsertRejected(m.vectors, id, t.records[a].embedding)
      && t == Memory(m.records[a := t.records[a]], m.indexes, m.vectors)
  }

  lemma {:induction false} UpdateIs(m: Memory, namespace: Namespace, id: Id, content: Option<string>, importance: Option<real>, now: int, embed: string -> Vector)
    requires Indexed(m)
    ensures var t := Updated(m, namespace, id, content, importance, now, embed);
      if Accepts(m, namespace, id, content, importance, now, embed)
      then Recorded(t, namespace, id) && UpdatesAs(m, namespace, id, content, importance, now, embed, t.records[Address(namespace, id)], t)
      else FailsAs(m, namespace, id, content, importance, now, embed, t)
  {
    RecallIs(m, namespace, id, now);
    assert Agrees(m, namespace, id);
    if Recorded(m, namespace, id) && !Expired(m.records[Address(namespace, id)], now) {
      var was, a := m.records[Address(namespace, id)], Address(namespace, id);
      var r := Changed(Touched(was, now), content, importance, embed);
      assert IsChanged(was, content, importance, now, embed, r);
      assert m.records[a := Touched(was, now)][a := r] == m.records[a := r];
    }
  }

  /** The record is stored as it was given, and listed in its namespace. */
  lemma {:induction false} InsertedIs(m: Memory, r: Record)
    ensures Inserted(m, r).records == m.records[Address(r.namespace, r.id) := r] && Inserted(m, r).vectors == m.vectors
    ensures Upserted(m, r) == Memory(m.records, m.indexes, m.vectors[r.id := VectorEntry(r.namespace, r.embedding)])
    ensures forall other, x :: x in Ids(Inserted(m, r), other) <==> x in Ids(m, other) || (other == r.namespace && x == r.id)
  {
  }

  // Every operation keeps the id lists in agreement with the records.

  lemma ReplaceKeepsIndexed(m: Memory, namespace: Namespace, id: Id, r: Record)
    requires Indexed(m) && Recorded(m, namespace, id) && r.id == id && r.namespace == namespace
    ensures Indexed(Replaced(m, r))
  {
    var t := Replaced(m, r);
    forall other
      ensures Distinct(Ids(t, other))
    {
      assert Distinct(Ids(m, other));
    }
    forall other, x
      ensures Agrees(t, other, x)
    {
      assert Agrees(m, other, x);
    }
  }

  lemma RecallKeepsIndexed(m: Memory, namespace: Namespace, id: Id, now: int)
    requires Indexed(m)
    ensures Indexed(Recalled(m, namespace, id, now))
    ensures Found(m, namespace, id, now) ==> Recalled(m, namespace, id, now) == Replaced(m, Touched(m.records[Address(namespace, id)], now))
  {
    ForgetKeepsIndexed(m, namespace, id);
    assert Agrees(m, namespace, id);
    if Recorded(m, namespace, id) {
      ReplaceKeepsIndexed(m, namespace, id, Touched(m.records[Address(namespace, id)], now));
    }
  }

  lemma {:induction false} RemovedEffect(m: Memory, namespace: Namespace, ids: seq<Id>)
    ensures var t := Removed(m, namespace, ids);
      t.indexes == m.indexes
      && (forall a: Address :: a in t.records <==> a in m.records && !(a.namespace == namespace && a.id in ids))
      && (forall a: Address :: a in t.records ==> t.records[a] == m.records[a])
      && (forall id :: id in t.vectors <==> id in m.vectors && id !in ids)
      && forall id :: id in t.vectors ==> t.vectors[id] == m.vectors[id]
    decreases |ids|
  {
    if ids == [] {
    } else {
      RemovedEffect(m.(records := m.records - {Address(namespace, ids[0])}, vectors := m.vectors - {ids[0]}), namespace, ids[1..]);
      assert ids == [ids[0]] + ids[1..];
    }
  }

  /** Clearing a namespace empties it and leaves the other namespaces' records and indexes alone. */
  lemma {:induction false} ClearEmpties(m: Memory, namespace: Namespace)
    requires Indexed(m)
    ensures Indexed(Cleared(m, namespace)) && Ids(Cleared(m, namespace), namespace) == []
    ensures OnlyWithout(m, Cleared(m, namespace), namespace, Elements(Ids(m, namespace)))
  {
    var t := Cleared(m, namespace);
    RemovedEffect(m, namespace, Ids(m, namespace));
    forall other
      ensures Distinct(Ids(t, other))
    {
      assert Distinct(Ids(m, other));
    }
    forall other, x
      ensures Agrees(t, other, x)
    {
      assert Agrees(m, other, x);
    }
  }

  lemma UpdateKeepsIndexed(m: Memory, namespace: Namespace, id: Id, content: Option<string>, importance: Option<real>, now: int, embed: string -> Vector)
    requires Indexed(m)
    ensures Indexed(Updated(m, namespace, id, content, importance, now, embed))
  {
    var touched := Recalled(m, namespace, id, now);
    RecallKeepsIndexed(m, namespace, id, now);
    if Found(m, namespace, id, now) {
      assert Agrees(m, namespace, id);
      var r := Changed(Touched(m.records[Address(namespace, id)], now), content, importance, embed);
      ReplaceKeepsIndexed(touched, namespace, id, r);
      SameIndexed(Replaced(touched, r), Upserted(Replaced(touched, r), r));
    }
  }

  lemma RememberKeepsIndexed(m: Memory, r: Record, capacity: nat)
    requires Indexed(m)
    ensures Indexed(Remembered(m, r, capacity))
  {
    InsertKeepsIndexed(m, r);
    SameIndexed(Inserted(m, r), Upserted(Inserted(m, r), r));
    var _ := EnforcementEvictsLowest(Upserted(Inserted(m, r), r), r.namespace, capacity);
  }

  lemma ConsolidateKeepsIndexed(m: Memory, namespace: Namespace, now: int, capacity: nat)
    requires Indexed(m)
    ensures Indexed(Consolidated(m, namespace, now, capacity))
  {
    ForgettingAll(m, namespace, ExpiredIds(m, namespace, now));
    var _ := EnforcementEvictsLowest(ForgottenAll(m, namespace, ExpiredIds(m, namespace, now)), namespace, capacity);
  }

  // All vectors have one dimension.

  ghost predicate Uniform(vectors: map<Id, VectorEntry>) {
    forall a, b :: a in vectors && b in vectors ==> |vectors[a].vector| == |vectors[b].vector|
  }

  /** So it is enough that `upsert` looks at the first one. */
  lemma FirstDecides(vectors: map<Id, VectorEntry>, first: Id, id: Id, vector: Vector)
    requires Uniform(vectors) && first in vectors
    ensures UpsertRejected(vectors, id, vector) <==> Blank(id) || vector == [] || |vectors[first].vector| != |vector|
  {
  }

  lemma UpsertKeepsUniform(vectors: map<Id, VectorEntry>, id: Id, entry: VectorEntry)
    requires Uniform(vectors) && !UpsertRejected(vectors, id, entry.vector)
    ensures Uniform(vectors[id := entry])
  {
  }

  /** Forgetting takes vectors away and changes none. */
  lemma {:induction false} ForgettingKeepsVectors(m: Memory, namespace: Namespace, ids: seq<Id>)
    ensures forall id :: id in ForgottenAll(m, namespace, ids).vectors ==>
      id in m.vectors && ForgottenAll(m, namespace, ids).vectors[id] == m.vectors[id]
    decreases |ids|
  {
    if ids == [] {
    } else {
      ForgettingKeepsVectors(Forgotten(m, namespace, ids[0]), namespace, ids[1..]);
    }
  }

  lemma ForgettingKeepsUniform(m: Memory, namespace: Namespace, ids: seq<Id>)
    requires Uniform(m.vectors)
    ensures Uniform(ForgottenAll(m, namespace, ids).vectors)
  {
    ForgettingKeepsVectors(m, namespace, ids);
  }

  lemma EnforceKeepsUniform(m: Memory, namespace: Namespace, capacity: nat)
    requires Uniform(m.vectors)
    ensures Uniform(Enforced(m, namespace, capacity).vectors)
  {
    ForgettingKeepsUniform(m, namespace, IdsOf(Excess(Loaded(m, namespace, Ids(m, namespace)), capacity)));
  }

  lemma RememberKeepsUniform(m: Memory, r: Record, capacity: nat)
    requires Uniform(m.vectors)
    ensures Uniform(Remembered(m, r, capacity).vectors)
  {
    if !UpsertRejected(m.vectors, r.id, r.embedding) {
      UpsertKeepsUniform(m.vectors, r.id, VectorEntry(r.namespace, r.embedding));
      EnforceKeepsUniform(Upserted(Inserted(m, r), r), r.namespace, capacity);
    }
  }

  lemma RecallKeepsUniform(m: Memory, namespace: Namespace, id: Id, now: int)
    requires Uniform(m.vectors)
    ensures Uniform(Recalled(m, namespace, id, now).vectors)
  {
  }

  lemma UpdateKeepsUniform(m: Memory, namespace: Namespace, id: Id, content: Option<string>, importance: Option<real>, now: int, embed: string -> Vector)
    requires Uniform(m.vectors)
    ensures Uniform(Updated(m, namespace, id, content, importance, now, embed).vectors)
  {
    RecallKeepsUniform(m, namespace, id, now);
    if Accepts(m, namespace, id, content, importance, now, embed) {
      var r := Changed(Touched(m.records[Address(namespace, id)], now), content, importance, embed);
      if !UpsertRejected(m.vectors, r.id, r.embedding) { UpsertKeepsUniform(m.vectors, r.id, VectorEntry(r.namespace, r.embedding)); }
    }
  }

  lemma ConsolidateKeepsUniform(m: Memory, namespace: Namespace, now: int, capacity: nat)
    requires Uniform(m.vectors)
    ensures Uniform(Consolidated(m, namespace, now, capacity).vectors)
  {
    ForgettingKeepsUniform(m, namespace, ExpiredIds(m, namespace, now));
    EnforceKeepsUniform(ForgottenAll(m, namespace, ExpiredIds(m, namespace, now)), namespace, capacity);
  }

  lemma ClearKeepsUniform(m: Memory, namespace: Namespace)
    requires Uniform(m.vectors)
    ensures Uniform(Cleared(m, namespace).vectors)
  {
    RemovedEffect(m, namespace, Ids(m, namespace));
  }

  class PersistentMemoryEngine {
    const capacity: nat
    const embed: string -> Vector
    var records: map<Address, Record>
    var indexes: map<Namespace, seq<Id>>
    var vectors: map<Id, VectorEntry>

    constructor (capacity: nat, embed: string -> Vector)
      requires capacity >= 1
      ensures Valid() && View() == Memory(map[], map[], map[]) && this.capacity == capacity && this.embed == embed
    {
      this.capacity, this.embed, records, indexes, vectors := capacity, embed, map[], map[], map[];
    }

    function View(): Memory
      reads this
    {
      Memory(records, indexes, vectors)
    }

    /** In each namespace the id list is duplicate-free and names exactly the stored records; all vectors have one dimension. */
    ghost predicate Valid()
      reads this
    {
      Indexed(View()) && Uniform(vectors)
    }

    method AddToIndex(namespace: Namespace, id: Id)
      modifies this`indexes
      ensures indexes == if id in Ids(old(View()), namespace) then old(indexes)
                         else old(indexes)[namespace := Ids(old(View()), namespace) + [id]]
    {
      var ids := if namespace in indexes then indexes[namespace] else [];
      if id in ids { return; }
      indexes := indexes[namespace := ids + [id]];
    }

    /** Only the first vector is compared, which one that is does not matter. */
    method Upsert(id: Id, namespace: Namespace, vector: Vector) returns (r: Result<()>)
      requires Uniform(vectors)
      modifies this`vectors
      ensures Uniform(vectors)
      ensures r == if UpsertRejected(old(vectors), id, vector) then Err(InvalidArgument) else Ok(())
      ensures vectors == if r.Ok? then old(vectors)[id := VectorEntry(namespace, vector)] else old(vectors)
    {
      if Blank(id) || vector == [] { return Err(InvalidArgument); }
      if vectors != map[] {
        assert vectors.Keys != {};
        var first :| first in vectors;
        FirstDecides(vectors, first, id, vector);
        if |vectors[first].vector| != |vector| { return Err(InvalidArgument); }
      }
      UpsertKeepsUniform(vectors, id, VectorEntry(namespace, vector));
      vectors := vectors[id := VectorEntry(namespace, vector)];
      return Ok(());
    }

    method ForgetRecord(namespace: Namespace, id: Id)
      modifies this
      ensures View() == Forgotten(old(View()), namespace, id)
    {
      records := records - {Address(namespace, id)};
      var ids := if namespace in indexes then indexes[namespace] else [];
      if id in ids { indexes := indexes[namespace := Filter(ids, (x: Id) => x != id)]; }
      vectors := vectors - {id};
    }

    method Forget(namespace: Namespace, id: Id) returns (r: Result<bool>)
      requires Valid()
      modifies this
      ensures Valid()
      ensures r == if !ValidNamespace(namespace) || TooLong(namespace, id) then Err(InvalidArgument) else Ok(Recorded(old(View()), namespace, id))
      ensures View() == if r.Ok? then Forgotten(old(View()), namespace, id) else old(View())
      ensures r.Ok? ==> records == old(records) - {Address(namespace, id)} && vectors == old(vectors) - {id}
      ensures r.Ok? ==> forall other, x :: x in Ids(View(), other) <==> x in Ids(old(View()), other) && !(other == namespace && x == id)
    {
      if !ValidNamespace(namespace) || TooLong(namespace, id) { return Err(InvalidArgument); }
      ForgetKeepsIndexed(View(), namespace, id);
      RecallKeepsUniform(View(), namespace, id, 0);
      r := Ok(Address(namespace, id) in records);
      ForgetRecord(namespace, id);
    }

    method EnforceCapacity(namespace: Namespace) returns (removed: nat)
      requires Valid()
      modifies this
      ensures Valid()
      ensures View() == Enforced(old(View()), namespace, capacity)
      ensures removed == |Ids(old(View()), namespace)| - |Ids(View(), namespace)|
    {
      var ids := Ids(View(), namespace);
      ghost var before := View();
      if |ids| <= capacity {
        EnforceNothing(before, namespace, capacity);
        return 0;
      }
      EnforceKeepsUniform(before, namespace, capacity);
      var loaded := Loaded(View(), namespace, ids);
      LoadedIff(before, namespace);
      var excess := SortBy(loaded, NotAbove)[..|loaded| - capacity];
      removed := |excess|;
      for i := 0 to |excess|
        invariant ForgottenAll(before, namespace, IdsOf(excess)) == ForgottenAll(View(), namespace, IdsOf(excess)[i..])
      {
        ForgetRecord(namespace, excess[i].id);
      }
      var _ := EnforcementEvictsLowest(before, namespace, capacity);
    }

    method Remember(namespace: Namespace, id: Id, content: string, importance: real, embedding: Option<Vector>, ttl: Option<int>, now: int)
      returns (r: Result<Record>)
      requires Valid()
      modifies this
      ensures Valid()
      ensures !ValidInput(namespace, id, content, importance, ttl) ==> r == Err(InvalidArgument) && View() == old(View())
      ensures ValidInput(namespace, id, content, importance, ttl) ==>
        var record := Record(id, namespace, content, importance, now, 0,
                             if ttl.Some? then Some(now + ttl.value) else None, embedding.GetOr(embed(content)));
        r == (if UpsertRejected(old(vectors), id, record.embedding) then Err(InvalidArgument) else Ok(record))
        && View() == Remembered(old(View()), record, capacity)
      ensures r.Ok? ==> r.value.id == id && r.value.namespace == namespace && r.value.content == content && r.value.importance == importance
      ensures r.Ok? ==> r.value.lastAccessed == now && r.value.accessCount == 0
      ensures r.Ok? ==> r.value.expiresAt == (match ttl case None => None case Some(t) => Some(now + t))
      ensures r.Ok? ==> r.value.embedding == match embedding case None => embed(content) case Some(v) => v
      ensures r.Ok? ==> !Blank(content) && 0.0 <= importance <= 1.0 && (ttl.Some? ==> ttl.value > 0)
    {
      if !ValidNamespace(namespace) || Blank(content) || !(0.0 <= importance <= 1.0) { return Err(InvalidArgument); }
      if ttl.Some? && ttl.value <= 0 { return Err(InvalidArgument); }
      var vector := if embedding.Some? then embedding.value else embed(content);
      var expires := if ttl.Some? then Some(now + ttl.value) else None;
      var record := Record(id, namespace, content, importance, now, 0, expires, vector);
      if TooLong(namespace, id) { return Err(InvalidArgument); }
      records := records[Address(namespace, id) := record];
      AddToIndex(namespace, id);
      ghost var inserted := View();
      assert inserted == Inserted(old(View()), record);
      InsertKeepsIndexed(old(View()), record);
      RememberKeepsUniform(old(View()), record, capacity);
      var upserted := Upsert(id, namespace, vector);
      if upserted.Err? {
        assert View() == inserted;
        return Err(upserted.error);
      }
      SameIndexed(Inserted(old(View()), record), View());
      var _ := EnforceCapacity(namespace);
      return Ok(record);
    }

    method Recall(namespace: Namespace, id: Id, now: int) returns (r: Result<Option<Record>>)
      requires Valid()
      modifies this
      ensures Valid()
      ensures !ValidNamespace(namespace) || TooLong(namespace, id) ==> r == Err(InvalidArgument) && View() == old(View())
      ensures ValidNamespace(namespace) && !TooLong(namespace, id) ==>
        View() == Recalled(old(View()), namespace, id, now)
        && r == Ok(if Found(old(View()), namespace, id, now) then Some(records[Address(namespace, id)]) else None)
      ensures r.Ok? ==> RecallsAs(old(View()), namespace, id, now, r.value, View())
    {
      RecallIs(View(), namespace, id, now);
      RecallKeepsIndexed(View(), namespace, id, now);
      RecallKeepsUniform(View(), namespace, id, now);
      if !ValidNamespace(namespace) || TooLong(namespace, id) { return Err(InvalidArgument); }
      if Address(namespace, id) !in records { return Ok(None); }
      var record := records[Address(namespace, id)];
      if Expired(record, now) {
        var _ := Forget(namespace, id);
        return Ok(None);
      }
      var touched := record.(lastAccessed := now, accessCount := record.accessCount + 1);
      records := records[Address(namespace, id) := touched];
      return Ok(Some(touched));
    }

    /** Throws when there is no such record, or the importance or the new vector is rejected; the recall's touch stays even then. */
    method Update(namespace: Namespace, id: Id, content: Option<string>, importance: Option<real>, now: int) returns (r: Result<Record>)
      requires Valid()
      modifies this
      ensures Valid()
      ensures r.Ok? <==> ValidNamespace(namespace) && !TooLong(namespace, id) && Accepts(old(View()), namespace, id, content, importance, now, embed)
      ensures r.Err? ==>
        r.error == if ValidNamespace(namespace) && !TooLong(namespace, id) && !Found(old(View()), namespace, id, now) then NotFound else InvalidArgument
      ensures View() == if ValidNamespace(namespace) && !TooLong(namespace, id)
                        then Updated(old(View()), namespace, id, content, importance, now, embed) else old(View())
      ensures r.Ok? ==> Recorded(View(), namespace, id) && r.value == records[Address(namespace, id)]
      ensures r.Ok? ==> UpdatesAs(old(View()), namespace, id, content, importance, now, embed, r.value, View())
      ensures r.Err? && ValidNamespace(namespace) && !TooLong(namespace, id) ==>
        FailsAs(old(View()), namespace, id, content, importance, now, embed, View())
    {
      UpdateIs(View(), namespace, id, content, importance, now, embed);
      UpdateKeepsIndexed(View(), namespace, id, content, importance, now, embed);
      UpdateKeepsUniform(View(), namespace, id, content, importance, now, embed);
      var current := Recall(namespace, id, now);
      if current.Err? { return Err(current.error); }
      if current.value.None? { return Err(NotFound); }
      assert Agrees(old(View()), namespace, id);
      if importance.Some? && !(0.0 <= importance.value <= 1.0) { return Err(InvalidArgument); }
      var record := Changed(current.value.value, content, importance, embed);
      records := records[Address(namespace, id) := record];
      var upserted := Upsert(id, namespace, record.embedding);
      assert View() == Updated(old(View()), namespace, id, content, importance, now, embed);
      if upserted.Err? { return Err(upserted.error); }
      return Ok(record);
    }

    method Consolidate(namespace: Namespace, now: int) returns (r: Result<nat>)
      requires Valid()
      modifies this
      ensures Valid()
      ensures r.Ok? <==> ValidNamespace(namespace)
      ensures View() == if r.Ok? then Consolidated(old(View()), namespace, now, capacity) else old(View())
      ensures r.Ok? ==> r.value == |Ids(old(View()), namespace)| - |Ids(View(), namespace)|
    {
      if !ValidNamespace(namespace) { return Err(InvalidArgument); }
      var all := Loaded(View(), namespace, Ids(View(), namespace));
      var expired := Filter(all, (record: Record) => Expired(record, now));
      for i := 0 to |expired|
        invariant ForgottenAll(old(View()), namespace, IdsOf(expired)) == ForgottenAll(View(), namespace, IdsOf(expired)[i..])
      {
        ForgetRecord(namespace, expired[i].id);
      }
      ForgettingExpired(old(View()), namespace, now);
      ForgettingKeepsUniform(old(View()), namespace, ExpiredIds(old(View()), namespace, now));
      var evicted := EnforceCapacity(namespace);
      return Ok(|expired| + evicted);
    }

    method Clear(namespace: Namespace) returns (r: Result<nat>)
      requires Valid()
      modifies this
      ensures Valid()
      ensures r == if ValidNamespace(namespace) then Ok(|Ids(old(View()), namespace)|) else Err(InvalidArgument)
      ensures View() == if r.Ok? then Cleared(old(View()), namespace) else old(View())
    {
      ClearEmpties(View(), namespace);
      ClearKeepsUniform(View(), namespace);
      if !ValidNamespace(namespace) { return Err(InvalidArgument); }
      var ids := Ids(View(), namespace);
      for i := 0 to |ids|
        invariant Removed(old(View()), namespace, ids) == Removed(View(), namespace, ids[i..])
      {
        records := records - {Address(namespace, ids[i])};
        vectors := vectors - {ids[i]};
      }
      indexes := indexes - {namespace};
      return Ok(|ids|);
    }
  }
}
