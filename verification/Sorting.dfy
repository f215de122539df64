/** `Array.prototype.sort` with a comparator: a stable sort, by insertion from the back. */
module Sorting {
  import opened Prelude

  function Insert<T>(x: T, sorted: seq<T>, before: (T, T) -> bool): (r: seq<T>)
    ensures x in r && (forall y :: y in sorted ==> y in r) && forall y :: y in r ==> y == x || y in sorted
    ensures |r| == |sorted| + 1
  {
    if sorted == [] || before(x, sorted[0]) then [x] + sorted
    else [sorted[0]] + Insert(x, sorted[1..], before)
  }

  function SortBy<T>(s: seq<T>, before: (T, T) -> bool): (r: seq<T>)
    ensures (forall y :: y in s ==> y in r) && forall y :: y in r ==> y in s
    ensures |r| == |s|
  {
    if s == [] then [] else Insert(s[0], SortBy(s[1..], before), before)
  }

  ghost predicate Ordered<T>(s: seq<T>, before: (T, T) -> bool) {
    forall i, j :: 0 <= i < j < |s| ==> before(s[i], s[j])
  }

  /** The comparator ranks any two of the elements, and consistently. */
  ghost predicate Ranks<T>(s: seq<T>, before: (T, T) -> bool) {
    && (forall x, y :: x in s && y in s ==> before(x, y) || before(y, x))
    && forall x, y, z :: x in s && y in s && z in s && before(x, y) && before(y, z) ==> before(x, z)
  }

  lemma {:induction false} InsertOrders<T>(x: T, sorted: seq<T>, before: (T, T) -> bool)
    requires Ordered(sorted, before) && Ranks([x] + sorted, before)
    ensures Ordered(Insert(x, sorted, before), before)
  {
    if sorted == [] {
    } else {
      var all, head := [x] + sorted, sorted[0];
      assert head in all && x in all;
      if before(x, head) {
        forall y | y in sorted
          ensures before(x, y)
        {
          var j :| 0 <= j < |sorted| && sorted[j] == y;
          assert y in all;
        }
      } else {
        assert forall y :: y in [x] + sorted[1..] ==> y in all;
        InsertOrders(x, sorted[1..], before);
        forall y | y in Insert(x, sorted[1..], before)
          ensures before(head, y)
        {
          if y != x {
            var j :| 0 <= j < |sorted[1..]| && sorted[1..][j] == y;
            assert sorted[j + 1] == y;
          }
        }
      }
    }
  }

  lemma {:induction false} InsertDistinct<T>(x: T, sorted: seq<T>, before: (T, T) -> bool)
    requires Distinct(sorted) && x !in sorted
    ensures Distinct(Insert(x, sorted, before))
  {
    if sorted != [] && !before(x, sorted[0]) {
      InsertDistinct(x, sorted[1..], before);
      assert sorted[0] !in sorted[1..];
    }
  }

  lemma {:induction false} InsertPermutes<T>(x: T, sorted: seq<T>, before: (T, T) -> bool)
    ensures multiset(Insert(x, sorted, before)) == multiset(sorted) + multiset{x}
  {
    if sorted == [] || before(x, sorted[0]) {
    } else {
      InsertPermutes(x, sorted[1..], before);
      assert sorted == [sorted[0]] + sorted[1..];
    }
  }

  lemma {:induction false} SortPermutes<T>(s: seq<T>, before: (T, T) -> bool)
    ensures multiset(SortBy(s, before)) == multiset(s)
  {
    if s == [] {
    } else {
      SortPermutes(s[1..], before);
      InsertPermutes(s[0], SortBy(s[1..], before), before);
      assert s == [s[0]] + s[1..];
    }
  }

  /** Sorting orders the elements and loses or repeats none. */
  lemma {:induction false} SortOrders<T>(s: seq<T>, before: (T, T) -> bool)
    requires Ranks(s, before)
    ensures Ordered(SortBy(s, before), before)
    ensures Distinct(s) ==> Distinct(SortBy(s, before))
  {
    if s == [] {
    } else {
      assert forall y :: y in s[1..] ==> y in s;
      SortOrders(s[1..], before);
      var rest := SortBy(s[1..], before);
      assert forall y :: y in [s[0]] + rest ==> y in s;
      InsertOrders(s[0], rest, before);
      if Distinct(s) {
        assert s[0] !in s[1..];
        InsertDistinct(s[0], rest, before);
      }
    }
  }

  ghost predicate Precedes<T>(s: seq<T>, x: T, y: T) {
    exists i, j :: 0 <= i < j < |s| && s[i] == x && s[j] == y
  }

  lemma {:induction false} InsertKeepsOrder<T>(x: T, sorted: seq<T>, before: (T, T) -> bool, a: T, b: T)
    requires Precedes(sorted, a, b)
    ensures Precedes(Insert(x, sorted, before), a, b)
  {
    var r := Insert(x, sorted, before);
    var i, j :| 0 <= i < j < |sorted| && sorted[i] == a && sorted[j] == b;
    if before(x, sorted[0]) {
      assert r[i + 1] == a && r[j + 1] == b;
    } else if i == 0 {
      assert sorted[1..][j - 1] == b && b in Insert(x, sorted[1..], before);
      var k :| 0 <= k < |r| - 1 && r[1..][k] == b;
      assert r[0] == a && r[k + 1] == b;
    } else {
      assert sorted[1..][i - 1] == a && sorted[1..][j - 1] == b;
      InsertKeepsOrder(x, sorted[1..], before, a, b);
      var k, l :| 0 <= k < l < |r| - 1 && r[1..][k] == a && r[1..][l] == b;
      assert r[k + 1] == a && r[l + 1] == b;
    }
  }

  lemma {:induction false} InsertInFront<T>(x: T, sorted: seq<T>, before: (T, T) -> bool, y: T)
    requires Ordered(sorted, before) && Ranks([x] + sorted, before) && y in sorted && before(x, y)
    ensures Precedes(Insert(x, sorted, before), x, y)
  {
    var r := Insert(x, sorted, before);
    var j :| 0 <= j < |sorted| && sorted[j] == y;
    if before(x, sorted[0]) {
      assert r[0] == x && r[j + 1] == y;
    } else {
      assert j > 0 && sorted[1..][j - 1] == y;
      assert forall z :: z in [x] + sorted[1..] ==> z in [x] + sorted;
      InsertInFront(x, sorted[1..], before, y);
      var k, l :| 0 <= k < l < |r| - 1 && r[1..][k] == x && r[1..][l] == y;
      assert r[k + 1] == x && r[l + 1] == y;
    }
  }

  /** The sort is stable: what may come first and did, still does. */
  lemma {:induction false} SortStable<T>(s: seq<T>, before: (T, T) -> bool, i: nat, j: nat)
    requires Ranks(s, before) && i < j < |s| && before(s[i], s[j])
    ensures Precedes(SortBy(s, before), s[i], s[j])
  {
    assert forall y :: y in s[1..] ==> y in s;
    var rest := SortBy(s[1..], before);
    if i == 0 {
      SortOrders(s[1..], before);
      assert forall y :: y in [s[0]] + rest ==> y in s;
      assert s[1..][j - 1] == s[j];
      InsertInFront(s[0], rest, before, s[j]);
    } else {
      assert s[1..][i - 1] == s[i] && s[1..][j - 1] == s[j];
      SortStable(s[1..], before, i - 1, j - 1);
      InsertKeepsOrder(s[0], rest, before, s[i], s[j]);
    }
  }
}
