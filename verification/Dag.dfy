/** Dependency graphs, as plans, workflows and plugins declare them. */
module Dag {
  import opened Prelude

  type Id = string

  /** Each id with the ids it depends on. */
  type Graph = map<Id, seq<Id>>

  predicate Closed(g: Graph) {
    forall v, d :: v in g && d in g[v] ==> d in g
  }

  predicate DependsOn(g: Graph, v: Id, d: Id) {
    v in g && d in g[v]
  }

  /** Follows dependencies: every element depends on the next. */
  ghost predicate IsTrail(g: Graph, t: seq<Id>) {
    forall i :: 0 <= i < |t| - 1 ==> DependsOn(g, t[i], t[i + 1])
  }

  ghost predicate IsCycle(g: Graph, t: seq<Id>) {
    |t| >= 2 && IsTrail(g, t) && t[0] == t[|t| - 1]
  }

  ghost predicate HasCycle(g: Graph) {
    exists t :: IsCycle(g, t)
  }

  /** The ids of `done` are listed so that each comes after everything it depends on. */
  ghost predicate IsTopological(g: Graph, order: seq<Id>) {
    forall i, d :: 0 <= i < |order| && DependsOn(g, order[i], d) ==> d in order[..i]
  }

  lemma TopologicalAppend(g: Graph, order: seq<Id>, v: Id)
    requires IsTopological(g, order) && forall d :: DependsOn(g, v, d) ==> d in order
    ensures IsTopological(g, order + [v])
  {
    var longer := order + [v];
    forall i, d | 0 <= i < |longer| && DependsOn(g, longer[i], d)
      ensures d in longer[..i]
    {
      assert longer[..i] == order[..i];
      assert order[..|order|] == order;
    }
  }

  function IndexOf(s: seq<Id>, x: Id): (i: nat)
    requires x in s
    ensures i < |s| && s[i] == x && x !in s[..i]
  {
    if s[0] == x then 0
    else
      var i := 1 + IndexOf(s[1..], x);
      assert s[..i] == [s[0]] + s[1..][..i - 1];
      i
  }

  lemma IndexBefore(s: seq<Id>, x: Id, i: nat)
    requires i <= |s| && x in s[..i]
    ensures x in s && IndexOf(s, x) < i
  {
    if s[0] == x {
    } else {
      assert s[1..][..i - 1] == s[..i][1..];
      IndexBefore(s[1..], x, i - 1);
    }
  }

  lemma TrailDescends(g: Graph, order: seq<Id>, t: seq<Id>)
    requires IsTopological(g, order) && IsTrail(g, t) && |t| >= 1 && t[0] in order
    ensures t[|t| - 1] in order
    ensures |t| >= 2 ==> IndexOf(order, t[|t| - 1]) < IndexOf(order, t[0])
    decreases |t|
  {
    if |t| == 1 {
    } else {
      var i := IndexOf(order, t[0]);
      assert DependsOn(g, t[0], t[1]);
      assert t[1] in order[..i];
      assert t[1] in order;
      IndexBefore(order, t[1], i);
      TrailDescends(g, order, t[1..]);
    }
  }

  /** A trail that starts in a topological order stays in it and does not come back to where it ends. */
  lemma TrailNeverReturns(g: Graph, order: seq<Id>, t: seq<Id>)
    requires IsTopological(g, order) && IsTrail(g, t) && |t| >= 1 && t[0] in order
    ensures t[|t| - 1] in order && t[|t| - 1] !in t[..|t| - 1]
  {
    var last := |t| - 1;
    TrailDescends(g, order, t);
    if t[last] in t[..last] {
      var i :| 0 <= i < last && t[i] == t[last];
      TrailDescends(g, order, t[..i + 1]);
      TrailDescends(g, order, t[i..]);
    }
  }

  /** Nothing in a topological order reaches a cycle. */
  lemma TopologicalNoCycle(g: Graph, order: seq<Id>, t: seq<Id>, c: seq<Id>)
    requires IsTopological(g, order)
    requires |t| >= 1 && t[0] in order && IsTrail(g, t)
    requires |c| >= 1 && c[0] == t[|t| - 1]
    ensures !IsCycle(g, c)
  {
    TrailDescends(g, order, t);
    if IsCycle(g, c) {
      TrailDescends(g, order, c);
    }
  }

  /** A graph whose every id is in a topological order is acyclic. */
  lemma TopologicalAcyclic(g: Graph, order: seq<Id>)
    requires IsTopological(g, order) && g.Keys <= Elements(order)
    ensures !HasCycle(g)
  {
    forall c
      ensures !IsCycle(g, c)
    {
      if IsCycle(g, c) {
        assert DependsOn(g, c[0], c[1]);
        TopologicalNoCycle(g, order, [c[0]], c);
      }
    }
  }

  ghost predicate DependsWithin(g: Graph, v: Id, within: set<Id>) {
    exists d :: d in within && DependsOn(g, v, d)
  }

  lemma DescendingTrail(g: Graph, within: set<Id>, n: nat) returns (t: seq<Id>)
    requires within != {}
    requires forall v :: v in within ==> DependsWithin(g, v, within)
    ensures |t| == n + 1 && IsTrail(g, t) && forall x :: x in t ==> x in within
  {
    if n == 0 {
      var v :| v in within;
      t := [v];
    } else {
      t := DescendingTrail(g, within, n - 1);
      assert DependsWithin(g, t[n - 1], within);
      var d :| d in within && DependsOn(g, t[n - 1], d);
      t := t + [d];
    }
  }

  /** If every member of a set depends on some member, the set holds a cycle. */
  lemma DescentGivesCycle(g: Graph, within: set<Id>)
    requires within != {}
    requires forall v :: v in within ==> DependsWithin(g, v, within)
    ensures HasCycle(g)
  {
    var t := DescendingTrail(g, within, |within|);
    Pigeonhole(t, within);
    var i, j :| 0 <= i < j < |t| && t[i] == t[j];
    assert IsCycle(g, t[i..j + 1]);
  }

  /** An acyclic graph has a topological order of all its ids. */
  lemma TopologicalOrderExists(g: Graph, start: seq<Id>) returns (order: seq<Id>)
    requires Closed(g) && !HasCycle(g) && IsTopological(g, start)
    ensures IsTopological(g, order) && g.Keys <= Elements(order)
    decreases g.Keys - Elements(start)
  {
    var rest := g.Keys - Elements(start);
    if rest == {} {
      order := start;
    } else {
      if forall v :: v in rest ==> DependsWithin(g, v, rest) {
        DescentGivesCycle(g, rest);
      }
      var v :| v in rest && !DependsWithin(g, v, rest);
      TopologicalAppend(g, start, v);
      assert Elements(start + [v]) == Elements(start) + {v};
      order := TopologicalOrderExists(g, start + [v]);
    }
  }

  /** Execution order: every element is a dependency of the next. */
  ghost predicate IsChain(g: Graph, c: seq<Id>) {
    && (forall i :: 0 <= i < |c| ==> c[i] in g)
    && (forall i :: 0 <= i < |c| - 1 ==> DependsOn(g, c[i + 1], c[i]))
  }

  ghost predicate ChainTo(g: Graph, c: seq<Id>, v: Id) {
    c != [] && c[|c| - 1] == v && IsChain(g, c)
  }

  ghost predicate ChainsAtMost(g: Graph, v: Id, n: nat) {
    forall c :: ChainTo(g, c, v) ==> |c| <= n
  }

  /** The longest chain of predecessors of `v` (not counting `v`) has exactly `k` elements. */
  ghost predicate AtDepth(g: Graph, v: Id, k: nat) {
    ChainsAtMost(g, v, k + 1) && exists c :: ChainTo(g, c, v) && |c| == k + 1
  }

  lemma ChainsAtMostStep(g: Graph, v: Id, n: nat)
    requires Closed(g) && v in g
    ensures ChainsAtMost(g, v, n + 1) <==> forall d :: d in g[v] ==> ChainsAtMost(g, d, n)
  {
    if ChainsAtMost(g, v, n + 1) {
      forall d, c | d in g[v] && ChainTo(g, c, d)
        ensures |c| <= n
      {
        assert ChainTo(g, c + [v], v);
      }
    }
    if forall d :: d in g[v] ==> ChainsAtMost(g, d, n) {
      forall c | ChainTo(g, c, v)
        ensures |c| <= n + 1
      {
        if |c| >= 2 {
          var front := c[..|c| - 1];
          assert DependsOn(g, c[|c| - 2 + 1], c[|c| - 2]);
          assert ChainTo(g, front, c[|c| - 2]);
        }
      }
    }
  }

  lemma ChainsAtMostZero(g: Graph, v: Id)
    requires v in g
    ensures !ChainsAtMost(g, v, 0)
  {
    assert ChainTo(g, [v], v);
  }

  lemma DepthFromBounds(g: Graph, v: Id, k: nat)
    requires ChainsAtMost(g, v, k + 1) && !ChainsAtMost(g, v, k)
    ensures AtDepth(g, v, k)
  {
    var c :| ChainTo(g, c, v) && |c| > k;
  }
}
