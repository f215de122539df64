/** What holds after any sequence of calls to the memory engine (`memory-engine.ts`). */
module MemoryRuns {
  import opened Prelude
  import opened MemoryModel
  import opened MemoryEngine

  /** The effect of one call that passed its argument checks. */
  datatype Call =
    | Remember(record: Record)
    | Recall(namespace: Namespace, id: Id, now: int)
    | Update(namespace: Namespace, id: Id, content: Option<string>, importance: Option<real>, now: int)
    | Forget(namespace: Namespace, id: Id)
    | Consolidate(namespace: Namespace, now: int)
    | Clear(namespace: Namespace)

  datatype Settings = Settings(capacity: nat, embed: string -> Vector)

  function Apply(m: Memory, c: Call, settings: Settings): Memory {
    match c
    case Remember(record) => Remembered(m, record, settings.capacity)
    case Recall(namespace, id, now) => Recalled(m, namespace, id, now)
    case Update(namespace, id, content, importance, now) => Updated(m, namespace, id, content, importance, now, settings.embed)
    case Forget(namespace, id) => Forgotten(m, namespace, id)
    case Consolidate(namespace, now) => Consolidated(m, namespace, now, settings.capacity)
    case Clear(namespace) => Cleared(m, namespace)
  }

  function ApplyAll(calls: seq<Call>, settings: Settings): Memory {
    if calls == [] then Memory(map[], map[], map[])
    else Apply(ApplyAll(calls[..|calls| - 1], settings), calls[|calls| - 1], settings)
  }

  /** Each id belongs to one namespace, and vectors all have the embedder's dimension. */
  datatype Usage = Usage(owner: map<Id, Namespace>, dimension: nat)

  ghost predicate Respects(c: Call, usage: Usage) {
    match c
    case Remember(r) =>
      r.id in usage.owner && usage.owner[r.id] == r.namespace && !Blank(r.id) && |r.embedding| == usage.dimension
    case Recall(namespace, id, _) => id in usage.owner && usage.owner[id] == namespace
    case Update(namespace, id, _, _, _) => id in usage.owner && usage.owner[id] == namespace
    case Forget(namespace, id) => id in usage.owner && usage.owner[id] == namespace
    case Consolidate(_, _) => true
    case Clear(_) => true
  }

  ghost predicate FixedDimension(settings: Settings, usage: Usage) {
    usage.dimension >= 1 && forall text :: |settings.embed(text)| == usage.dimension
  }

  /** Records sit in their owner's namespace and have the common dimension. */
  predicate Owned(m: Memory, usage: Usage, namespace: Namespace, id: Id) {
    Recorded(m, namespace, id) ==>
      id in usage.owner && usage.owner[id] == namespace && !Blank(id) && |m.records[Address(namespace, id)].embedding| == usage.dimension
  }

  ghost predicate InStep(m: Memory, usage: Usage) {
    && Indexed(m) && VectorsAgree(m)
    && forall namespace, id {:trigger Owned(m, usage, namespace, id)} :: Owned(m, usage, namespace, id)
  }

  /** After any calls whatever, every id list is duplicate-free and names exactly the stored records. */
  lemma {:induction false} EveryRunIndexed(calls: seq<Call>, settings: Settings)
    ensures Indexed(ApplyAll(calls, settings))
  {
    if calls == [] {
    } else {
      var m, c := ApplyAll(calls[..|calls| - 1], settings), calls[|calls| - 1];
      EveryRunIndexed(calls[..|calls| - 1], settings);
      match c {
        case Remember(r) => RememberKeepsIndexed(m, r, settings.capacity);
        case Recall(namespace, id, now) => RecallKeepsIndexed(m, namespace, id, now);
        case Update(namespace, id, content, importance, now) => UpdateKeepsIndexed(m, namespace, id, content, importance, now, settings.embed);
        case Forget(namespace, id) => ForgetKeepsIndexed(m, namespace, id);
        case Consolidate(namespace, now) => ConsolidateKeepsIndexed(m, namespace, now, settings.capacity);
        case Clear(namespace) => ClearEmpties(m, namespace);
      }
    }
  }

  /** The first record is the less important one or, as important, the longer unread. */
  predicate Lesser(a: Record, b: Record) {
    a.importance < b.importance || (a.importance == b.importance && a.lastAccessed < b.lastAccessed)
  }

  /** From records `m` to `t` the namespace loses `gone`, nothing in it that stays is lesser than anything that goes, and nothing else changes. */
  ghost predicate Loses(m: map<Address, Record>, t: map<Address, Record>, namespace: Namespace, gone: set<Id>) {
    && (forall id :: id in gone ==> Address(namespace, id) in m)
    && (forall a: Address :: a in t <==> a in m && !(a.namespace == namespace && a.id in gone))
    && (forall a: Address :: a in t ==> t[a] == m[a])
    && forall e, id :: e in gone && id !in gone && Address(namespace, id) in m ==>
      Address(namespace, e) in m && !Lesser(m[Address(namespace, id)], m[Address(namespace, e)])
  }

  /**
   `remember` stores the record as given, then brings the namespace down to its capacity: no survivor is lesser than an
   evicted record.
   */
  lemma {:induction false} RememberWithinCapacity(m: Memory, r: Record, capacity: nat) returns (gone: set<Id>)
    requires Indexed(m) && !UpsertRejected(m.vectors, r.id, r.embedding)
    ensures var full, t := Upserted(Inserted(m, r), r), Remembered(m, r, capacity);
      |Ids(t, r.namespace)| <= capacity && EvictsLowest(full, r.namespace, capacity, gone) && OnlyWithout(full, t, r.namespace, gone)
    ensures var t := Remembered(m, r, capacity);
      Loses(m.records[Address(r.namespace, r.id) := r], t.records, r.namespace, gone)
      && |gone| == if |Ids(Inserted(m, r), r.namespace)| > capacity then |Ids(Inserted(m, r), r.namespace)| - capacity else 0
  {
    InsertKeepsIndexed(m, r);
    SameIndexed(Inserted(m, r), Upserted(Inserted(m, r), r));
    gone := EnforcementEvictsLowest(Upserted(Inserted(m, r), r), r.namespace, capacity);
    InsertedIs(m, r);
    OnlyLoses(Upserted(Inserted(m, r), r), Remembered(m, r, capacity), r.namespace, capacity, gone);
  }

  lemma OnlyLoses(m: Memory, t: Memory, namespace: Namespace, capacity: nat, gone: set<Id>)
    requires EvictsLowest(m, namespace, capacity, gone) && OnlyWithout(m, t, namespace, gone)
    ensures Loses(m.records, t.records, namespace, gone)
  {
  }

  /** The ids of a namespace whose records have not expired. */
  ghost function Alive(m: Memory, namespace: Namespace, now: int): set<Id> {
    set id | id in Ids(m, namespace) && Recorded(m, namespace, id) && !Lapsed(m.records[Address(namespace, id)], now)
  }

  lemma KeptAlive(m: Memory, namespace: Namespace, now: int, id: Id)
    requires Indexed(m)
    ensures var kept := ForgottenAll(m, namespace, ExpiredIds(m, namespace, now));
      && (id in Ids(kept, namespace) <==> id in Alive(m, namespace, now)) && (Recorded(kept, namespace, id) <==> id in Alive(m, namespace, now))
      && (Recorded(kept, namespace, id) ==> kept.records[Address(namespace, id)] == m.records[Address(namespace, id)])
  {
    var stale := ExpiredIds(m, namespace, now);
    ForgettingAll(m, namespace, stale);
    assert Agrees(m, namespace, id);
    assert id in stale <==> id in Elements(stale);
    if id in stale { StaleExpired(m, namespace, now, id); }
    if Recorded(m, namespace, id) && Expired(m.records[Address(namespace, id)], now) { ExpiredListed(m, namespace, now, id); }
  }

  lemma StaleExpired(m: Memory, namespace: Namespace, now: int, id: Id)
    requires Indexed(m) && id in ExpiredIds(m, namespace, now)
    ensures Recorded(m, namespace, id) && Expired(m.records[Address(namespace, id)], now)
  {
    var expired := Filter(Loaded(m, namespace, Ids(m, namespace)), (x: Record) => Expired(x, now));
    LoadedIff(m, namespace);
    var i :| 0 <= i < |expired| && IdsOf(expired)[i] == id;
    assert expired[i] in expired && Stored(m, namespace, id, expired[i]);
  }

  /**
   `consolidate` keeps every record of the namespace that has not expired, if they are within the capacity; else it drops
   the lesser ones down to it. Other namespaces stay.
   */
  lemma {:induction false} ConsolidateKeepsAlive(m: Memory, namespace: Namespace, now: int, capacity: nat) returns (gone: set<Id>)
    requires Indexed(m)
    ensures var t, alive := Consolidated(m, namespace, now, capacity), Alive(m, namespace, now);
      && gone <= alive && |gone| == (if |alive| > capacity then |alive| - capacity else 0)
      && (forall id :: Recorded(t, namespace, id) <==> id in alive && id !in gone)
      && (forall id :: Recorded(t, namespace, id) ==> t.records[Address(namespace, id)] == m.records[Address(namespace, id)])
      && (forall e, id :: e in gone && id in alive && id !in gone ==>
           !Lesser(m.records[Address(namespace, id)], m.records[Address(namespace, e)]))
      && forall a: Address :: a.namespace != namespace ==> (a in t.records <==> a in m.records) && (a in m.records ==> t.records[a] == m.records[a])
  {
    var kept, alive := ForgottenAll(m, namespace, ExpiredIds(m, namespace, now)), Alive(m, namespace, now);
    ForgettingAll(m, namespace, ExpiredIds(m, namespace, now));
    gone := EnforcementEvictsLowest(kept, namespace, capacity);
    forall id
      ensures id in Ids(kept, namespace) <==> id in alive
      ensures Recorded(kept, namespace, id) <==> id in alive
      ensures Recorded(kept, namespace, id) ==> kept.records[Address(namespace, id)] == m.records[Address(namespace, id)]
    {
      KeptAlive(m, namespace, now, id);
    }
    assert Distinct(Ids(kept, namespace));
    DistinctSize(Ids(kept, namespace));
    assert Elements(Ids(kept, namespace)) == alive;
  }

  /** An expired record is among those that `consolidate` forgets first. */
  lemma ExpiredListed(m: Memory, namespace: Namespace, now: int, id: Id)
    requires Indexed(m) && Recorded(m, namespace, id) && Expired(m.records[Address(namespace, id)], now)
    ensures id in ExpiredIds(m, namespace, now)
  {
    var r := m.records[Address(namespace, id)];
    assert Agrees(m, namespace, id);
    LoadedIff(m, namespace);
    IdListed(Filter(Loaded(m, namespace, Ids(m, namespace)), (x: Record) => Expired(x, now)), r);
  }

  lemma IdListed(records: seq<Record>, r: Record)
    requires r in records
    ensures r.id in IdsOf(records)
  {
    var i :| 0 <= i < |records| && records[i] == r;
    assert IdsOf(records)[i] == r.id;
  }

  /** What is still there after consolidating was there before, was not among the forgotten, and has not changed. */
  lemma ConsolidatedWasThere(m: Memory, namespace: Namespace, now: int, capacity: nat, id: Id)
    requires Indexed(m) && Recorded(Consolidated(m, namespace, now, capacity), namespace, id)
    ensures Recorded(m, namespace, id) && id !in ExpiredIds(m, namespace, now)
    ensures Consolidated(m, namespace, now, capacity).records[Address(namespace, id)] == m.records[Address(namespace, id)]
  {
    var stale := ExpiredIds(m, namespace, now);
    var kept := ForgottenAll(m, namespace, stale);
    ForgettingAll(m, namespace, stale);
    var gone := EnforcementEvictsLowest(kept, namespace, capacity);
    KeptTwice(m, kept, Consolidated(m, namespace, now, capacity), namespace, stale, gone, id);
  }

  lemma KeptTwice(m: Memory, kept: Memory, t: Memory, namespace: Namespace, stale: seq<Id>, gone: set<Id>, id: Id)
    requires OnlyWithout(m, kept, namespace, Elements(stale)) && OnlyWithout(kept, t, namespace, gone)
    requires Recorded(t, namespace, id)
    ensures Recorded(m, namespace, id) && id !in stale && t.records[Address(namespace, id)] == m.records[Address(namespace, id)]
  {
    assert Address(namespace, id) in kept.records;
    assert id in stale <==> id in Elements(stale);
  }

  /** `consolidate` leaves no record that has expired. */
  lemma {:induction false} ConsolidateDropsExpired(m: Memory, namespace: Namespace, now: int, capacity: nat, id: Id)
    requires Indexed(m) && Recorded(Consolidated(m, namespace, now, capacity), namespace, id)
    ensures !Expired(Consolidated(m, namespace, now, capacity).records[Address(namespace, id)], now)
  {
    ConsolidatedWasThere(m, namespace, now, capacity, id);
    if Expired(m.records[Address(namespace, id)], now) { ExpiredListed(m, namespace, now, id); }
  }

  // The vector index.

  lemma OwnedUnshared(m: Memory, usage: Usage, namespace: Namespace, id: Id)
    requires InStep(m, usage) && id in usage.owner && usage.owner[id] == namespace
    ensures Unshared(m, namespace, id)
  {
    forall other | Recorded(m, other, id)
      ensures other == namespace
    {
      assert Owned(m, usage, other, id);
    }
  }

  lemma NotRejected(m: Memory, usage: Usage, id: Id, vector: Vector)
    requires InStep(m, usage) && !Blank(id) && usage.dimension >= 1 && |vector| == usage.dimension
    ensures !UpsertRejected(m.vectors, id, vector)
  {
    forall other | other in m.vectors
      ensures |m.vectors[other].vector| == usage.dimension
    {
      var namespace := m.vectors[other].namespace;
      assert Recorded(m, namespace, other);
      assert VectorAgrees(m, namespace, other) && Owned(m, usage, namespace, other);
    }
  }

  lemma FewerInStep(m: Memory, t: Memory, usage: Usage, namespace: Namespace, gone: set<Id>)
    requires InStep(m, usage) && OnlyWithout(m, t, namespace, gone) && Indexed(t) && VectorsAgree(t)
    ensures InStep(t, usage)
  {
    forall other, id
      ensures Owned(t, usage, other, id)
    {
      assert Owned(m, usage, other, id);
    }
  }

  lemma EnforceInStep(m: Memory, usage: Usage, namespace: Namespace, capacity: nat)
    requires InStep(m, usage)
    ensures InStep(Enforced(m, namespace, capacity), usage)
  {
    var gone := EnforcementEvictsLowest(m, namespace, capacity);
    FewerInStep(m, Enforced(m, namespace, capacity), usage, namespace, gone);
  }

  lemma RememberInStep(m: Memory, r: Record, usage: Usage, settings: Settings)
    requires InStep(m, usage) && FixedDimension(settings, usage) && Respects(Remember(r), usage)
    ensures InStep(Remembered(m, r, settings.capacity), usage)
  {
    NotRejected(m, usage, r.id, r.embedding);
    OwnedUnshared(m, usage, r.namespace, r.id);
    RememberKeepsVectorsIff(m, r);
    InsertKeepsIndexed(m, r);
    var full := Upserted(Inserted(m, r), r);
    SameIndexed(Inserted(m, r), full);
    forall namespace, id
      ensures Owned(full, usage, namespace, id)
    {
      assert Owned(m, usage, namespace, id);
    }
    EnforceInStep(full, usage, r.namespace, settings.capacity);
  }

  lemma ForgetInStep(m: Memory, usage: Usage, namespace: Namespace, id: Id)
    requires InStep(m, usage) && id in usage.owner && usage.owner[id] == namespace
    ensures InStep(Forgotten(m, namespace, id), usage)
  {
    OwnedUnshared(m, usage, namespace, id);
    ForgetKeepsVectorsIff(m, namespace, id);
    ForgetKeepsIndexed(m, namespace, id);
    forall other, x
      ensures Owned(Forgotten(m, namespace, id), usage, other, x)
    {
      assert Owned(m, usage, other, x);
    }
  }

  /** Replacing a record by one with the same vector, or upserting its new vector too. */
  lemma ReplaceInStep(m: Memory, usage: Usage, r: Record, upsert: bool)
    requires InStep(m, usage) && Recorded(m, r.namespace, r.id) && |r.embedding| == usage.dimension
    requires !upsert ==> r.embedding == m.records[Address(r.namespace, r.id)].embedding
    ensures InStep(if upsert then Upserted(Replaced(m, r), r) else Replaced(m, r), usage)
  {
    var t := if upsert then Upserted(Replaced(m, r), r) else Replaced(m, r);
    assert Owned(m, usage, r.namespace, r.id) && VectorAgrees(m, r.namespace, r.id);
    ReplaceKeepsIndexed(m, r.namespace, r.id, r);
    SameIndexed(Replaced(m, r), t);
    OwnedUnshared(m, usage, r.namespace, r.id);
    forall other, x
      ensures Owned(t, usage, other, x) && VectorAgrees(t, other, x)
    {
      assert Owned(m, usage, other, x) && VectorAgrees(m, other, x);
    }
    forall x | x in t.vectors
      ensures Recorded(t, t.vectors[x].namespace, x)
    {
      assert x in m.vectors && Recorded(m, m.vectors[x].namespace, x);
    }
  }

  lemma RecallInStep(m: Memory, usage: Usage, namespace: Namespace, id: Id, now: int)
    requires InStep(m, usage) && id in usage.owner && usage.owner[id] == namespace
    ensures InStep(Recalled(m, namespace, id, now), usage)
  {
    if Recorded(m, namespace, id) {
      assert Agrees(m, namespace, id) && Owned(m, usage, namespace, id);
      ForgetInStep(m, usage, namespace, id);
      ReplaceInStep(m, usage, Touched(m.records[Address(namespace, id)], now), false);
    }
  }

  lemma UpdateInStep(m: Memory, c: Call, usage: Usage, settings: Settings)
    requires InStep(m, usage) && FixedDimension(settings, usage) && c.Update? && Respects(c, usage)
    ensures InStep(Apply(m, c, settings), usage)
  {
    RecallInStep(m, usage, c.namespace, c.id, c.now);
    if Found(m, c.namespace, c.id, c.now) && ValidImportance(c.importance) {
      assert Agrees(m, c.namespace, c.id) && Owned(m, usage, c.namespace, c.id);
      RecallKeepsIndexed(m, c.namespace, c.id, c.now);
      var r := Changed(Touched(m.records[Address(c.namespace, c.id)], c.now), c.content, c.importance, settings.embed);
      NotRejected(m, usage, r.id, r.embedding);
      ReplaceInStep(Recalled(m, c.namespace, c.id, c.now), usage, r, true);
    }
  }

  lemma ConsolidateInStep(m: Memory, usage: Usage, namespace: Namespace, now: int, capacity: nat)
    requires InStep(m, usage)
    ensures InStep(Consolidated(m, namespace, now, capacity), usage)
  {
    var stale := ExpiredIds(m, namespace, now);
    StaleIds(m, namespace, now);
    ForgettingAll(m, namespace, stale);
    ForgettingAllKeepsVectors(m, namespace, stale);
    FewerInStep(m, ForgottenAll(m, namespace, stale), usage, namespace, Elements(stale));
    EnforceInStep(ForgottenAll(m, namespace, stale), usage, namespace, capacity);
  }

  lemma StaleIds(m: Memory, namespace: Namespace, now: int)
    requires Indexed(m)
    ensures Distinct(ExpiredIds(m, namespace, now)) && forall id :: id in ExpiredIds(m, namespace, now) ==> Recorded(m, namespace, id)
  {
    var all := Loaded(m, namespace, Ids(m, namespace));
    var expired, stale := Filter(all, (x: Record) => Expired(x, now)), ExpiredIds(m, namespace, now);
    LoadedIff(m, namespace);
    FilterDistinct(all, (x: Record) => Expired(x, now));
    assert forall i :: 0 <= i < |expired| ==> expired[i] in all && Stored(m, namespace, stale[i], expired[i]);
  }

  lemma ClearInStep(m: Memory, usage: Usage, namespace: Namespace)
    requires InStep(m, usage)
    ensures InStep(Cleared(m, namespace), usage)
  {
    var t, ids := Cleared(m, namespace), Ids(m, namespace);
    ClearEmpties(m, namespace);
    RemovedEffect(m, namespace, ids);
    forall other, id
      ensures VectorAgrees(t, other, id)
    {
      assert VectorAgrees(m, other, id) && Agrees(m, namespace, id);
      if Recorded(t, other, id) && id in ids {
        RecordedUnshared(m, namespace, id);
      }
    }
    forall id | id in t.vectors
      ensures Recorded(t, t.vectors[id].namespace, id)
    {
      assert Recorded(m, m.vectors[id].namespace, id);
    }
    FewerInStep(m, t, usage, namespace, Elements(ids));
  }

  /** With ids unique across namespaces and a fixed dimension, the vector index holds exactly each record's embedding. */
  lemma {:induction false} EveryRunInStep(calls: seq<Call>, usage: Usage, settings: Settings)
    requires FixedDimension(settings, usage) && forall c :: c in calls ==> Respects(c, usage)
    ensures InStep(ApplyAll(calls, settings), usage)
  {
    if calls == [] {
    } else {
      var m, c := ApplyAll(calls[..|calls| - 1], settings), calls[|calls| - 1];
      EveryRunInStep(calls[..|calls| - 1], usage, settings);
      assert c in calls;
      match c {
        case Remember(r) => RememberInStep(m, r, usage, settings);
        case Recall(namespace, id, now) => RecallInStep(m, usage, namespace, id, now);
        case Update(_, _, _, _, _) => UpdateInStep(m, c, usage, settings);
        case Forget(namespace, id) => ForgetInStep(m, usage, namespace, id);
        case Consolidate(namespace, now) => ConsolidateInStep(m, usage, namespace, now, settings.capacity);
        case Clear(namespace) => ClearInStep(m, usage, namespace);
      }
    }
  }

  function Note(namespace: Namespace, component: real): Record {
    Record("x", namespace, "note", 0.5, 0, 0, None, [component])
  }

  lemma NotesAccepted(namespace: Namespace, component: real)
    requires namespace == "first" || namespace == "second"
    ensures var r := Note(namespace, component); ValidInput(namespace, r.id, r.content, r.importance, None)
  {
    assert "note"[0] == 'n' && 'n' in "note";
    assert forall i :: 0 <= i < |namespace| ==> IsLetter(namespace[i]);
    assert |KeyOf(RecordSlot(namespace, "x"))| <= 30;
  }

  /** Remembering a note where it fits and its vector is accepted evicts nothing. */
  lemma NoteKept(m: Memory, r: Record, capacity: nat)
    requires Indexed(m) && Ids(m, r.namespace) == [] && capacity >= 1 && !UpsertRejected(m.vectors, r.id, r.embedding)
    ensures Remembered(m, r, capacity) == Upserted(Inserted(m, r), r) && Indexed(Remembered(m, r, capacity))
  {
    InsertKeepsIndexed(m, r);
    SameIndexed(Inserted(m, r), Upserted(Inserted(m, r), r));
    EnforceNothing(Upserted(Inserted(m, r), r), r.namespace, capacity);
  }

  /** `remember` accepts the note: its checks pass, and so do those of the vector index. */
  predicate Accepted(m: Memory, r: Record) {
    ValidInput(r.namespace, r.id, r.content, r.importance, None) && !UpsertRejected(m.vectors, r.id, r.embedding)
  }

  /** Two accepted calls remember the id "x" in two namespaces: the vector of the first record is lost. */
  lemma {:induction false} SharedIdLosesVector(settings: Settings)
    requires settings.capacity >= 1
    ensures Accepted(ApplyAll([], settings), Note("first", 1.0))
    ensures Accepted(ApplyAll([Remember(Note("first", 1.0))], settings), Note("second", 2.0))
    ensures var m := ApplyAll([Remember(Note("first", 1.0)), Remember(Note("second", 2.0))], settings);
      && Recorded(m, "first", "x") && Recorded(m, "second", "x")
      && m.vectors == map["x" := VectorEntry("second", [2.0])] && !VectorsAgree(m)
  {
    var a, b := Note("first", 1.0), Note("second", 2.0);
    var empty := Memory(map[], map[], map[]);
    var calls := [Remember(a), Remember(b)];
    assert calls[..1] == [Remember(a)] && [Remember(a)][..0] == [];
    assert "x"[0] == 'x' && 'x' in "x" && |"first"| != |"second"|;
    NotesAccepted("first", 1.0);
    NotesAccepted("second", 2.0);
    EveryRunIndexed([], settings);
    assert Indexed(empty) by { assert ApplyAll([], settings) == empty; }
    NoteKept(empty, a, settings.capacity);
    var m := Remembered(empty, a, settings.capacity);
    assert ApplyAll([Remember(a)], settings) == m;
    NoteKept(m, b, settings.capacity);
    var t := ApplyAll(calls, settings);
    assert t == Upserted(Inserted(m, b), b);
    assert !VectorAgrees(t, "first", "x");
  }
}
