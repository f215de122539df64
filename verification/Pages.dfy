/** `MemoryKeyValueStore.list`: a sorted, prefix-filtered page and the cursor to the next one. */
module Pages {
  import opened Prelude
  import opened KeyValueStore

  /** JavaScript's order on strings: lexicographic by code unit, a proper prefix first. */
  predicate Below(a: Key, b: Key) {
    b != [] && (a == [] || a[0] < b[0] || (a[0] == b[0] && Below(a[1..], b[1..])))
  }

  lemma {:induction false} BelowTotal(a: Key, b: Key)
    ensures a == b || Below(a, b) || Below(b, a)
    ensures !(Below(a, b) && Below(b, a)) && !Below(a, a)
  {
    if a != [] && b != [] {
      BelowTotal(a[1..], b[1..]);
      assert a == [a[0]] + a[1..] && b == [b[0]] + b[1..];
    }
    if a != [] {
      BelowTotal(a[1..], a[1..]);
    }
  }

  lemma {:induction false} BelowTransitive(a: Key, b: Key, c: Key)
    requires Below(a, b) && Below(b, c)
    ensures Below(a, c)
  {
    if a != [] && a[0] == b[0] && b[0] == c[0] {
      BelowTransitive(a[1..], b[1..], c[1..]);
    }
  }

  predicate InOrder(keys: seq<Key>, i: nat, j: nat)
    requires i < j < |keys|
  {
    Below(keys[i], keys[j])
  }

  ghost predicate Ascending(keys: seq<Key>) {
    forall i: nat, j: nat {:trigger InOrder(keys, i, j)} :: i < j < |keys| ==> InOrder(keys, i, j)
  }

  lemma AscendingTail(keys: seq<Key>)
    requires Ascending(keys) && keys != []
    ensures Ascending(keys[1..])
    ensures forall k :: k in keys[1..] ==> Below(keys[0], k)
  {
    forall i: nat, j: nat | i < j < |keys| - 1
      ensures InOrder(keys[1..], i, j)
    {
      assert InOrder(keys, i + 1, j + 1);
    }
    forall j | 0 <= j < |keys| - 1
      ensures Below(keys[0], keys[1..][j])
    {
      assert InOrder(keys, 0, j + 1);
    }
  }

  lemma AscendingCons(least: Key, rest: seq<Key>)
    requires Ascending(rest) && forall k :: k in rest ==> Below(least, k)
    ensures Ascending([least] + rest)
  {
    var keys := [least] + rest;
    forall i: nat, j: nat | i < j < |keys|
      ensures InOrder(keys, i, j)
    {
      assert i > 0 ==> InOrder(rest, i - 1, j - 1);
      assert keys[j] in rest;
    }
  }

  ghost predicate IsLeast(keys: set<Key>, least: Key) {
    least in keys && forall k :: k in keys && k != least ==> Below(least, k)
  }

  lemma {:induction false} LeastExists(keys: set<Key>)
    requires keys != {}
    ensures exists k :: IsLeast(keys, k)
  {
    var some :| some in keys;
    if keys == {some} {
      assert IsLeast(keys, some);
    } else {
      LeastExists(keys - {some});
      var rest :| IsLeast(keys - {some}, rest);
      BelowTotal(some, rest);
      if Below(some, rest) {
        forall k | k in keys && k != some && k != rest
          ensures Below(some, k)
        {
          BelowTransitive(some, rest, k);
        }
        assert IsLeast(keys, some);
      } else {
        assert IsLeast(keys, rest);
      }
    }
  }

  /** `[...keys].sort()` */
  ghost function Sorted(keys: set<Key>): (r: seq<Key>)
    ensures Ascending(r) && Distinct(r) && Elements(r) == keys
  {
    if keys == {} then []
    else
      LeastExists(keys);
      var least :| IsLeast(keys, least);
      var rest := Sorted(keys - {least});
      assert forall k :: k in rest ==> k in Elements(rest);
      assert Elements([least] + rest) == {least} + Elements(rest);
      AscendingCons(least, rest);
      [least] + rest
  }

  lemma AscendingSize(keys: seq<Key>)
    requires Ascending(keys)
    ensures Distinct(keys) && |keys| == |Elements(keys)|
  {
    forall i, j | 0 <= i < j < |keys|
      ensures keys[i] != keys[j]
    {
      assert InOrder(keys, i, j);
      BelowTotal(keys[i], keys[j]);
    }
    DistinctSize(keys);
  }

  /** Only one ascending sequence holds given keys. */
  lemma {:induction false} AscendingUnique(a: seq<Key>, b: seq<Key>)
    requires Ascending(a) && Ascending(b) && Elements(a) == Elements(b)
    ensures a == b
  {
    forall k
      ensures k in a <==> k in b
    {
      assert k in Elements(a) <==> k in Elements(b);
    }
    AscendingSize(a);
    AscendingSize(b);
    if a == [] {
    } else {
      AscendingTail(a);
      AscendingTail(b);
      assert a == [a[0]] + a[1..] && b == [b[0]] + b[1..];
      BelowTotal(a[0], b[0]);
      assert a[0] in b && b[0] in a;
      BelowTotal(a[0], a[0]);
      assert a[0] !in a[1..] && b[0] !in b[1..];
      forall k
        ensures k in a[1..] <==> k in a && k != a[0]
        ensures k in b[1..] <==> k in b && k != b[0]
      {
      }
      assert Elements(a[1..]) == Elements(b[1..]);
      AscendingUnique(a[1..], b[1..]);
    }
  }

  datatype Page = Page(items: seq<Stored>, nextCursor: Option<Key>)

  function Matching(values: Values, prefix: Key): set<Key> {
    set k | k in values && prefix <= k
  }

  /** `keys.findIndex((key) => key > cursor)` */
  function FindAbove(keys: seq<Key>, cursor: Key): (i: int)
    ensures -1 <= i < |keys|
    ensures i == -1 ==> forall k :: k in keys ==> !Below(cursor, k)
    ensures i >= 0 ==> Below(cursor, keys[i]) && forall j :: 0 <= j < i ==> !Below(cursor, keys[j])
  {
    if keys == [] then -1
    else if Below(cursor, keys[0]) then 0
    else
      var rest := FindAbove(keys[1..], cursor);
      if rest == -1 then -1 else rest + 1
  }

  /** Where a page starts: a cursor that no key follows wraps round to the first key. */
  function Start(keys: seq<Key>, cursor: Option<Key>): (start: nat)
    ensures start <= |keys|
  {
    match cursor
    case None => 0
    case Some(c) => if FindAbove(keys, c) < 0 then 0 else FindAbove(keys, c)
  }

  /** `selected.flatMap`, which skips keys without an entry. */
  function Items(values: Values, selected: seq<Key>): seq<Stored> {
    if selected == [] then []
    else
      (match Lookup(values, selected[0])
       case None => []
       case Some(stored) => [stored])
      + Items(values, selected[1..])
  }

  predicate ValidLimit(limit: int) {
    1 <= limit <= 1000
  }

  /** `list` after the limit check, on the sorted keys. */
  function PageOf(values: Values, keys: seq<Key>, limit: nat, cursor: Option<Key>): Page
    requires limit >= 1
  {
    PageFrom(values, keys, limit, Start(keys, cursor))
  }

  function PageFrom(values: Values, keys: seq<Key>, limit: nat, start: nat): Page
    requires limit >= 1 && start <= |keys|
  {
    Page(Items(values, Selected(keys, limit, start)), NextCursor(keys, limit, start))
  }

  /** `keys.slice(start, start + limit)` */
  function Selected(keys: seq<Key>, limit: nat, start: nat): seq<Key>
    requires limit >= 1 && start <= |keys|
  {
    keys[start..(if start + limit <= |keys| then start + limit else |keys|)]
  }

  function NextCursor(keys: seq<Key>, limit: nat, start: nat): Option<Key>
    requires limit >= 1 && start <= |keys|
  {
    var selected := Selected(keys, limit, start);
    if selected == [] || start + limit >= |keys| then None else Some(selected[|selected| - 1])
  }

  ghost function ListPage(values: Values, prefix: Key, limit: Option<int>, cursor: Option<Key>): Result<Page> {
    if !ValidLimit(limit.GetOr(100)) then Err(InvalidArgument)
    else Ok(PageOf(values, Sorted(Matching(values, prefix)), limit.GetOr(100), cursor))
  }

  lemma {:induction false} ItemsCount(values: Values, selected: seq<Key>)
    ensures |Items(values, selected)| <= |selected|
  {
    if selected != [] { ItemsCount(values, selected[1..]); }
  }

  /** A listing is refused exactly for a limit outside 1 to 1000, and a page has at most as many entries as asked for, 100 by default. */
  lemma {:induction false} LimitHolds(values: Values, prefix: Key, limit: Option<int>, cursor: Option<Key>)
    ensures var r := ListPage(values, prefix, limit, cursor);
      && (r.Err? <==> limit.Some? && !(1 <= limit.value <= 1000))
      && (r.Ok? ==> |r.value.items| <= match limit case None => 100 case Some(n) => n)
  {
    var keys, n := Sorted(Matching(values, prefix)), limit.GetOr(100);
    if ValidLimit(n) { ItemsCount(values, Selected(keys, n, Start(keys, cursor))); }
  }

  /** In an ascending sequence the keys above one of its members are those behind it. */
  lemma AboveMember(keys: seq<Key>, i: nat)
    requires Ascending(keys) && i < |keys|
    ensures FindAbove(keys, keys[i]) == if i + 1 < |keys| then i + 1 else -1
  {
    forall j | 0 <= j < |keys|
      ensures Below(keys[i], keys[j]) <==> i < j
    {
      if i < j {
        assert InOrder(keys, i, j);
      }
      if j < i {
        assert InOrder(keys, j, i);
      }
      BelowTotal(keys[i], keys[j]);
    }
    var next := i + 1;
    assert next < |keys| ==> Below(keys[i], keys[next]) && keys[next] in keys;
  }

  /** A next cursor is the last key of its page, and the page it leads to starts right behind. */
  lemma NextPageAdjoins(keys: seq<Key>, limit: nat, start: nat)
    requires Ascending(keys) && limit >= 1 && start <= |keys|
    ensures var next := NextCursor(keys, limit, start); next.Some? <==> start + limit < |keys|
    ensures var next := NextCursor(keys, limit, start); next.Some? ==> FindAbove(keys, next.value) == start + limit
  {
    if start + limit < |keys| {
      var last := start + limit - 1;
      assert NextCursor(keys, limit, start) == Some(keys[last]);
      AboveMember(keys, last);
    }
  }

  /** What a caller gets by asking for page after page until there is no next cursor. */
  ghost function Follow(values: Values, keys: seq<Key>, limit: nat, cursor: Option<Key>): seq<Stored>
    requires Ascending(keys) && limit >= 1
    decreases |keys| - Start(keys, cursor)
  {
    NextPageAdjoins(keys, limit, Start(keys, cursor));
    var page := PageOf(values, keys, limit, cursor);
    if page.nextCursor.None? then page.items else page.items + Follow(values, keys, limit, page.nextCursor)
  }

  lemma {:induction false} ItemsConcat(values: Values, a: seq<Key>, b: seq<Key>)
    ensures Items(values, a + b) == Items(values, a) + Items(values, b)
  {
    if a == [] {
      assert a + b == b;
    } else {
      ItemsConcat(values, a[1..], b);
      TailOfConcat(a, b);
    }
  }

  lemma TailOfConcat(a: seq<Key>, b: seq<Key>)
    requires a != []
    ensures (a + b)[0] == a[0] && (a + b)[1..] == a[1..] + b
  {
  }

  lemma ItemsSplit(values: Values, keys: seq<Key>, start: nat, next: nat)
    requires start <= next <= |keys|
    ensures Items(values, keys[start..]) == Items(values, keys[start..next]) + Items(values, keys[next..])
  {
    ItemsConcat(values, keys[start..next], keys[next..]);
    SuffixSplit(keys, start, next);
  }

  lemma SuffixSplit(keys: seq<Key>, start: nat, next: nat)
    requires start <= next <= |keys|
    ensures keys[start..] == keys[start..next] + keys[next..]
  {
  }

  lemma {:induction false} ItemsAreEntries(values: Values, keys: seq<Key>)
    requires forall k :: k in keys ==> k in values
    ensures |Items(values, keys)| == |keys|
    ensures forall i :: 0 <= i < |keys| ==> Some(Items(values, keys)[i]) == Lookup(values, keys[i])
  {
    if keys == [] {
    } else {
      ItemsAreEntries(values, keys[1..]);
    }
  }

  lemma {:induction false} FollowListsSuffix(values: Values, keys: seq<Key>, limit: nat, cursor: Option<Key>)
    requires Ascending(keys) && limit >= 1
    ensures Follow(values, keys, limit, cursor) == Items(values, keys[Start(keys, cursor)..])
    decreases |keys| - Start(keys, cursor)
  {
    var start, page := Start(keys, cursor), PageOf(values, keys, limit, cursor);
    PageEnds(keys, limit, start);
    if page.nextCursor.Some? {
      FollowListsSuffix(values, keys, limit, page.nextCursor);
      ItemsSplit(values, keys, start, start + limit);
    }
  }

  /** The last page takes the rest of the keys; another one stops where the next begins. */
  lemma PageEnds(keys: seq<Key>, limit: nat, start: nat)
    requires Ascending(keys) && limit >= 1 && start <= |keys|
    ensures var next := NextCursor(keys, limit, start);
      if next.Some? then start + limit < |keys| && Start(keys, next) == start + limit && Selected(keys, limit, start) == keys[start..start + limit]
      else Selected(keys, limit, start) == keys[start..]
  {
    NextPageAdjoins(keys, limit, start);
    assert keys[start..|keys|] == keys[start..];
  }

  /** Paging from the start yields every key with the prefix exactly once, in ascending order, with its entry. */
  lemma {:induction false} PagingListsEveryKeyOnce(values: Values, prefix: Key, limit: nat)
    requires limit >= 1
    ensures var keys := Sorted(Matching(values, prefix)); var items := Follow(values, keys, limit, None);
      && |items| == |keys|
      && Ascending(keys) && Distinct(keys)
      && (forall k :: k in keys <==> k in values && prefix <= k)
      && forall i :: 0 <= i < |keys| ==> Some(items[i]) == Lookup(values, keys[i])
  {
    var keys := Sorted(Matching(values, prefix));
    FollowListsSuffix(values, keys, limit, None);
    assert keys[0..] == keys;
    forall k
      ensures k in keys <==> k in values && prefix <= k
    {
      assert k in keys <==> k in Elements(keys);
    }
    ItemsAreEntries(values, keys);
  }

  ghost predicate Listed(items: seq<Stored>, key: Key) {
    exists i :: 0 <= i < |items| && items[i].key == key
  }

  ghost predicate ListsKeysAbove(items: seq<Stored>, keys: seq<Key>, cursor: Key) {
    forall k :: Listed(items, k) <==> k in keys && Below(cursor, k)
  }

  lemma ListedIff(values: Values, keys: seq<Key>, key: Key)
    requires forall k :: k in keys ==> k in values
    ensures Listed(Items(values, keys), key) <==> key in keys
  {
    ItemsAreEntries(values, keys);
    var items := Items(values, keys);
    assert forall i :: 0 <= i < |keys| ==> items[i].key == keys[i];
  }

  lemma SuffixAbove(keys: seq<Key>, cursor: Key, k: Key)
    requires Ascending(keys) && FindAbove(keys, cursor) >= 0
    ensures (k in keys && Below(cursor, k)) <==> k in keys[FindAbove(keys, cursor)..]
  {
    var start := FindAbove(keys, cursor);
    forall j | start < j < |keys|
      ensures Below(cursor, keys[j])
    {
      assert InOrder(keys, start, j);
      BelowTransitive(cursor, keys[start], keys[j]);
    }
  }

  /** Starting from an arbitrary cursor lists just the keys above it, unless there are keys but none above it. */
  lemma {:induction false} ResumeCorrectIff(values: Values, prefix: Key, limit: nat, cursor: Key)
    requires limit >= 1
    ensures var keys := Sorted(Matching(values, prefix));
      ListsKeysAbove(Follow(values, keys, limit, Some(cursor)), keys, cursor) <==> (keys == [] || exists k :: k in keys && Below(cursor, k))
  {
    var keys := Sorted(Matching(values, prefix));
    var listed := keys[Start(keys, Some(cursor))..];
    FollowListsSuffix(values, keys, limit, Some(cursor));
    assert forall k :: k in keys ==> k in Elements(keys);
    ListsSuffix(values, keys, Start(keys, Some(cursor)));
    if FindAbove(keys, cursor) >= 0 {
      RightSuffix(keys, cursor, Items(values, listed));
    } else {
      WholeList(keys, cursor, Items(values, listed));
    }
  }

  lemma ListsSuffix(values: Values, keys: seq<Key>, start: nat)
    requires start <= |keys| && forall k :: k in keys ==> k in values
    ensures forall k :: Listed(Items(values, keys[start..]), k) <==> k in keys[start..]
  {
    forall k
      ensures Listed(Items(values, keys[start..]), k) <==> k in keys[start..]
    {
      assert forall x :: x in keys[start..] ==> x in keys;
      ListedIff(values, keys[start..], k);
    }
  }

  lemma RightSuffix(keys: seq<Key>, cursor: Key, items: seq<Stored>)
    requires Ascending(keys) && FindAbove(keys, cursor) >= 0
    requires forall k :: Listed(items, k) <==> k in keys[FindAbove(keys, cursor)..]
    ensures ListsKeysAbove(items, keys, cursor) && exists k :: k in keys && Below(cursor, k)
  {
    forall k
      ensures Listed(items, k) <==> k in keys && Below(cursor, k)
    {
      SuffixAbove(keys, cursor, k);
    }
    assert keys[FindAbove(keys, cursor)] in keys;
  }

  lemma WholeList(keys: seq<Key>, cursor: Key, items: seq<Stored>)
    requires FindAbove(keys, cursor) < 0 && forall k :: Listed(items, k) <==> k in keys[0..]
    ensures ListsKeysAbove(items, keys, cursor) <==> keys == []
    ensures !exists k :: k in keys && Below(cursor, k)
  {
    if keys != [] {
      assert keys[0..][0] == keys[0] && keys[0] in keys[0..];
      assert Listed(items, keys[0]) && !Below(cursor, keys[0]);
    }
  }

  /** A store with the one key "a": the page after the cursor "b" starts again at "a". */
  lemma {:induction false} ResumeWrapsRound()
    ensures var values := map["a" := Entry("value", 1)];
      && Below("a", "b")
      && ListPage(values, "", None, Some("b")) == Ok(Page([Stored("a", "value", 1)], None))
      && !ListsKeysAbove(Follow(values, Sorted(Matching(values, "")), 100, Some("b")), Sorted(Matching(values, "")), "b")
  {
    var values := map["a" := Entry("value", 1)];
    var keys := Sorted(Matching(values, ""));
    AlphabetStart();
    assert Matching(values, "") == {"a"};
    OnlyKey("a");
    assert keys == ["a"] && FindAbove(keys, "b") == -1;
    assert Selected(keys, 100, 0) == ["a"];
    assert Items(values, ["a"]) == [Stored("a", "value", 1)];
    ResumeCorrectIff(values, "", 100, "b");
  }

  lemma AlphabetStart()
    ensures Below("a", "b") && !Below("b", "a")
  {
    assert "a"[0] == 'a' && "b"[0] == 'b';
  }

  lemma OnlyKey(key: Key)
    ensures Sorted({key}) == [key]
  {
    var sorted := Sorted({key});
    assert Elements([key]) == {key};
    AscendingUnique(sorted, [key]);
  }
}
