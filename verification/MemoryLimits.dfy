/** The capacity of namespaces and the dimension of vectors over whole runs of the memory engine (`memory-engine.ts`). */
module MemoryLimits {
  import opened Prelude
  import opened MemoryModel
  import opened MemoryEngine
  import opened MemoryRuns

  /** After any calls whatever, all vectors have one dimension. */
  lemma {:induction false} EveryRunUniform(calls: seq<Call>, settings: Settings)
    ensures Uniform(ApplyAll(calls, settings).vectors)
  {
    if calls == [] {
    } else {
      var m := ApplyAll(calls[..|calls| - 1], settings);
      EveryRunUniform(calls[..|calls| - 1], settings);
      match calls[|calls| - 1] {
        case Remember(r) => RememberKeepsUniform(m, r, settings.capacity);
        case Recall(namespace, id, now) => RecallKeepsUniform(m, namespace, id, now);
        case Update(namespace, id, content, importance, now) => UpdateKeepsUniform(m, namespace, id, content, importance, now, settings.embed);
        case Forget(namespace, id) => ForgettingKeepsUniform(m, namespace, [id]);
        case Consolidate(namespace, now) => ConsolidateKeepsUniform(m, namespace, now, settings.capacity);
        case Clear(namespace) => ClearKeepsUniform(m, namespace);
      }
    }
  }

  predicate Fits(m: Memory, namespace: Namespace, capacity: nat) {
    |Ids(m, namespace)| <= capacity
  }

  ghost predicate WithinCapacity(m: Memory, capacity: nat) {
    forall namespace {:trigger Fits(m, namespace, capacity)} :: Fits(m, namespace, capacity)
  }

  /** A `remember` that the vector index rejects leaves a new record behind in a namespace that is full. */
  predicate Overfills(m: Memory, c: Call, capacity: nat) {
    && c.Remember? && UpsertRejected(m.vectors, c.record.id, c.record.embedding)
    && c.record.id !in Ids(m, c.record.namespace) && |Ids(m, c.record.namespace)| >= capacity
  }

  /** Where no ids are added, a namespace stays within its capacity. */
  lemma FewerFit(m: Memory, t: Memory, capacity: nat)
    requires Indexed(m) && Indexed(t) && WithinCapacity(m, capacity)
    requires forall namespace, id :: id in Ids(t, namespace) ==> id in Ids(m, namespace)
    ensures WithinCapacity(t, capacity)
  {
    forall namespace
      ensures Fits(t, namespace, capacity)
    {
      var before, after := Ids(m, namespace), Ids(t, namespace);
      DistinctSize(before);
      DistinctSize(after);
      SubsetSize(Elements(after), Elements(before));
      assert Fits(m, namespace, capacity);
    }
  }

  lemma OnlyWithoutFits(m: Memory, t: Memory, namespace: Namespace, gone: set<Id>, capacity: nat)
    requires Indexed(m) && Indexed(t) && WithinCapacity(m, capacity) && OnlyWithout(m, t, namespace, gone)
    ensures WithinCapacity(t, capacity)
  {
    forall other, id | id in Ids(t, other)
      ensures id in Ids(m, other)
    {
      assert other != namespace ==> Ids(t, other) == Ids(m, other);
    }
    FewerFit(m, t, capacity);
  }

  lemma RecallFits(m: Memory, namespace: Namespace, id: Id, now: int, capacity: nat)
    requires Indexed(m) && WithinCapacity(m, capacity)
    ensures WithinCapacity(Recalled(m, namespace, id, now), capacity)
  {
    var t := Recalled(m, namespace, id, now);
    RecallKeepsIndexed(m, namespace, id, now);
    ForgettingAll(m, namespace, [id]);
    assert ForgottenAll(m, namespace, [id]) == Forgotten(m, namespace, id);
    if Recorded(m, namespace, id) && Expired(m.records[Address(namespace, id)], now) {
      OnlyWithoutFits(m, t, namespace, Elements([id]), capacity);
    } else {
      SameLists(m, t, capacity);
    }
  }

  lemma SameLists(m: Memory, t: Memory, capacity: nat)
    requires WithinCapacity(m, capacity) && t.indexes == m.indexes
    ensures WithinCapacity(t, capacity)
  {
    forall namespace
      ensures Fits(t, namespace, capacity)
    {
      assert Fits(m, namespace, capacity);
    }
  }

  lemma UpdateFits(m: Memory, c: Call, settings: Settings)
    requires Indexed(m) && WithinCapacity(m, settings.capacity) && c.Update?
    ensures WithinCapacity(Apply(m, c, settings), settings.capacity)
  {
    var touched := Recalled(m, c.namespace, c.id, c.now);
    RecallFits(m, c.namespace, c.id, c.now, settings.capacity);
    SameLists(touched, Apply(m, c, settings), settings.capacity);
  }

  lemma RememberFitsIff(m: Memory, c: Call, settings: Settings)
    requires Indexed(m) && WithinCapacity(m, settings.capacity) && c.Remember?
    ensures WithinCapacity(Apply(m, c, settings), settings.capacity) <==> !Overfills(m, c, settings.capacity)
  {
    var r, capacity, t := c.record, settings.capacity, Apply(m, c, settings);
    var inserted := Inserted(m, r);
    assert Fits(m, r.namespace, capacity);
    forall other | other != r.namespace
      ensures Ids(inserted, other) == Ids(m, other) && Fits(m, other, capacity)
    {
    }
    if UpsertRejected(m.vectors, r.id, r.embedding) {
      assert Overfills(m, c, capacity) ==> !Fits(t, r.namespace, capacity);
    } else {
      var gone := RememberWithinCapacity(m, r, capacity);
      forall other
        ensures Fits(t, other, capacity)
      {
        assert other != r.namespace ==> Ids(t, other) == Ids(Upserted(inserted, r), other) == Ids(inserted, other);
      }
    }
  }

  /** From a memory within its capacity, exactly such a `remember` leads out of it. */
  lemma {:induction false} StepFitsIff(m: Memory, c: Call, settings: Settings)
    requires Indexed(m) && WithinCapacity(m, settings.capacity)
    ensures WithinCapacity(Apply(m, c, settings), settings.capacity) <==> !Overfills(m, c, settings.capacity)
  {
    match c {
      case Remember(_) => RememberFitsIff(m, c, settings);
      case Recall(namespace, id, now) => RecallFits(m, namespace, id, now, settings.capacity);
      case Update(_, _, _, _, _) => UpdateFits(m, c, settings);
      case Forget(namespace, id) =>
        ForgettingAll(m, namespace, [id]);
        assert ForgottenAll(m, namespace, [id]) == Forgotten(m, namespace, id);
        OnlyWithoutFits(m, Forgotten(m, namespace, id), namespace, Elements([id]), settings.capacity);
      case Consolidate(namespace, now) => ConsolidateFits(m, namespace, now, settings.capacity);
      case Clear(namespace) =>
        ClearEmpties(m, namespace);
        OnlyWithoutFits(m, Cleared(m, namespace), namespace, Elements(Ids(m, namespace)), settings.capacity);
    }
  }

  lemma ConsolidateFits(m: Memory, namespace: Namespace, now: int, capacity: nat)
    requires Indexed(m) && WithinCapacity(m, capacity)
    ensures WithinCapacity(Consolidated(m, namespace, now, capacity), capacity)
  {
    var stale := ExpiredIds(m, namespace, now);
    var kept := ForgottenAll(m, namespace, stale);
    ForgettingAll(m, namespace, stale);
    OnlyWithoutFits(m, kept, namespace, Elements(stale), capacity);
    var gone := EnforcementEvictsLowest(kept, namespace, capacity);
    OnlyWithoutFits(kept, Enforced(kept, namespace, capacity), namespace, gone, capacity);
  }

  ghost predicate FitsAfter(calls: seq<Call>, n: nat, settings: Settings)
    requires n <= |calls|
  {
    WithinCapacity(ApplyAll(calls[..n], settings), settings.capacity)
  }

  predicate OverfillsAt(calls: seq<Call>, n: nat, settings: Settings)
    requires n < |calls|
  {
    Overfills(ApplyAll(calls[..n], settings), calls[n], settings.capacity)
  }

  lemma FitsNext(calls: seq<Call>, n: nat, settings: Settings)
    requires n < |calls| && FitsAfter(calls, n, settings)
    ensures FitsAfter(calls, n + 1, settings) <==> !OverfillsAt(calls, n, settings)
  {
    assert calls[..n + 1][..n] == calls[..n];
    EveryRunIndexed(calls[..n], settings);
    StepFitsIff(ApplyAll(calls[..n], settings), calls[n], settings);
  }

  /** A run stays within the capacity of every namespace throughout exactly if no rejected `remember` overfills a full one. */
  lemma {:induction false} AlwaysFitsIff(calls: seq<Call>, n: nat, settings: Settings)
    requires n <= |calls|
    ensures (forall k: nat {:trigger FitsAfter(calls, k, settings)} :: k <= n ==> FitsAfter(calls, k, settings))
       <==> (forall k: nat {:trigger OverfillsAt(calls, k, settings)} :: k < n ==> !OverfillsAt(calls, k, settings))
  {
    if n == 0 {
      assert calls[..0] == [];
    } else {
      AlwaysFitsIff(calls, n - 1, settings);
      if forall k: nat {:trigger FitsAfter(calls, k, settings)} :: k <= n - 1 ==> FitsAfter(calls, k, settings) {
        assert FitsAfter(calls, n - 1, settings);
        FitsNext(calls, n - 1, settings);
      }
    }
  }

  /** Calls that keep to one owner per id and one dimension never leave the capacity. */
  lemma {:induction false} RespectingRunsFit(calls: seq<Call>, usage: Usage, settings: Settings)
    requires FixedDimension(settings, usage) && forall c :: c in calls ==> Respects(c, usage)
    ensures WithinCapacity(ApplyAll(calls, settings), settings.capacity)
  {
    forall k: nat | k < |calls|
      ensures !OverfillsAt(calls, k, settings)
    {
      assert calls[k] in calls && forall c :: c in calls[..k] ==> c in calls;
      EveryRunInStep(calls[..k], usage, settings);
      if calls[k].Remember? {
        NotRejected(ApplyAll(calls[..k], settings), usage, calls[k].record.id, calls[k].record.embedding);
      }
    }
    AlwaysFitsIff(calls, |calls|, settings);
    assert FitsAfter(calls, |calls|, settings) && calls[..|calls|] == calls;
  }

  /** Capacity 1: after an accepted note, one with an empty vector passes the checks on its input, and its record stays. */
  lemma {:induction false} RejectedOverfills(settings: Settings)
    requires settings.capacity == 1
    ensures var first, second := Note("first", 1.0), Note("first", 1.0).(id := "y", embedding := []);
      var m := ApplyAll([Remember(first), Remember(second)], settings);
      && ValidInput("first", "y", second.content, second.importance, None)
      && Ids(m, "first") == ["x", "y"] && Recorded(m, "first", "y") && !WithinCapacity(m, 1)
  {
    var first, second := Note("first", 1.0), Note("first", 1.0).(id := "y", embedding := []);
    var empty, calls := Memory(map[], map[], map[]), [Remember(first), Remember(second)];
    assert calls[..1] == [Remember(first)] && [Remember(first)][..0] == [];
    NotesAccepted("first", 1.0);
    assert "x"[0] == 'x' && 'x' in "x" && "y"[0] == 'y';
    EveryRunIndexed([], settings);
    assert Indexed(empty) by { assert ApplyAll([], settings) == empty; }
    NoteKept(empty, first, settings.capacity);
    var m := Remembered(empty, first, settings.capacity);
    assert ApplyAll([Remember(first)], settings) == m;
    assert Ids(m, "first") == ["x"];
    var t := ApplyAll(calls, settings);
    assert t == Inserted(m, second);
    assert Ids(t, "first") == ["x", "y"];
    assert !Fits(t, "first", 1);
  }
}
