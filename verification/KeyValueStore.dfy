/** The optimistic-version store `MemoryKeyValueStore` (`key-value-store.ts`): what its write and delete bodies do. */
module KeyValueStore {
  import opened Prelude

  type Key = string
  type Value = string

  datatype Entry = Entry(value: Value, version: nat)
  datatype Stored = Stored(key: Key, value: Value, version: nat)

  type Values = map<Key, Entry>

  datatype Operation =
    | Write(key: Key, value: Value, expected: Option<int>)
    | Remove(key: Key, expected: Option<int>)

  datatype Outcome = Written(entry: Stored) | Removed(existed: bool) | Rejected(error: Error)

  /** `validKey` throws on these. */
  predicate InvalidKey(key: Key) {
    Blank(key) || |key| > 1024
  }

  predicate Conflicts(values: Values, key: Key, expected: Option<int>) {
    expected.Some? && (key in values ==> values[key].version != expected.value)
  }

  /** The body of `write` or `remove`, for a given test on keys. */
  function Perform(invalid: Key -> bool, values: Values, op: Operation): (r: (Values, Outcome)) {
    if invalid(op.key) then (values, Rejected(InvalidArgument))
    else match op
      case Write(key, value, expected) =>
        if Conflicts(values, key, expected) then (values, Rejected(Conflict))
        else
          var entry := Entry(value, if key in values then values[key].version + 1 else 1);
          (values[key := entry], Written(Stored(key, value, entry.version)))
      case Remove(key, expected) =>
        if key !in values then (values, Removed(false))
        else if Conflicts(values, key, expected) then (values, Rejected(Conflict))
        else (values - {key}, Removed(true))
  }

  function Do(values: Values, op: Operation): (Values, Outcome) {
    Perform(InvalidKey, values, op)
  }

  function Lookup(values: Values, key: Key): Option<Stored> {
    if key in values then Some(Stored(key, values[key].value, values[key].version)) else None
  }

  class MemoryKeyValueStore {
    var values: Values

    constructor ()
      ensures values == map[]
    {
      values := map[];
    }

    method Get(key: Key) returns (r: Result<Option<Stored>>)
      ensures r == if InvalidKey(key) then Err(InvalidArgument) else Ok(Lookup(values, key))
      ensures r.Ok? && r.value.None? ==> key !in values
      ensures r.Ok? && r.value.Some? ==> key in values && r.value.value == Stored(key, values[key].value, values[key].version)
    {
      if InvalidKey(key) { return Err(InvalidArgument); }
      return Ok(Lookup(values, key));
    }

    /** The body `set` and transactions run inside the mutex. */
    method WriteBody(key: Key, value: Value, expected: Option<int>) returns (r: Outcome)
      modifies this
      ensures (values, r) == Do(old(values), Write(key, value, expected))
      ensures r == Rejected(InvalidArgument) <==> |key| > 1024 || forall c :: c in key ==> IsSpace(c)
      ensures r.Rejected? <==> InvalidKey(key) || (expected.Some? && !(key in old(values) && old(values)[key].version == expected.value))
      ensures r.Rejected? ==> values == old(values) && r.error == if InvalidKey(key) then InvalidArgument else Conflict
      ensures !r.Rejected? ==> r == Written(Stored(key, value, if key in old(values) then old(values)[key].version + 1 else 1))
      ensures !r.Rejected? ==> values == old(values)[key := Entry(value, r.entry.version)]
    {
      if InvalidKey(key) { return Rejected(InvalidArgument); }
      if expected.Some? && (key !in values || values[key].version != expected.value) { return Rejected(Conflict); }
      var version := (if key in values then values[key].version else 0) + 1;
      values := values[key := Entry(value, version)];
      return Written(Stored(key, value, version));
    }

    /** The body `delete` and transactions run inside the mutex. */
    method RemoveBody(key: Key, expected: Option<int>) returns (r: Outcome)
      modifies this
      ensures (values, r) == Do(old(values), Remove(key, expected))
      ensures r == Rejected(InvalidArgument) <==> |key| > 1024 || forall c :: c in key ==> IsSpace(c)
      ensures r.Rejected? <==> InvalidKey(key) || (key in old(values) && expected.Some? && old(values)[key].version != expected.value)
      ensures r.Rejected? ==> values == old(values) && r.error == if InvalidKey(key) then InvalidArgument else Conflict
      ensures !r.Rejected? ==> r == Removed(key in old(values)) && values == old(values) - {key}
    {
      if InvalidKey(key) { return Rejected(InvalidArgument); }
      if key !in values { return Removed(false); }
      if expected.Some? && values[key].version != expected.value { return Rejected(Conflict); }
      values := values - {key};
      return Removed(true);
    }
  }
}
