/**
 Kahn-style grouping of steps into levels, as `PlanningEngine.levels` and
 `WorkflowEngine.levels` both do it.
 */
module Levels {
  import opened Prelude
  import opened Dag

  ghost function OfDepth(g: Graph, ids: seq<Id>, k: nat): seq<Id> {
    Filter(ids, v => AtDepth(g, v, k))
  }

  ghost predicate AllOfDepth(g: Graph, ids: seq<Id>, levels: seq<seq<Id>>) {
    forall k :: 0 <= k < |levels| ==> levels[k] != [] && levels[k] == OfDepth(g, ids, k)
  }

  /**
   Level `k` lists, in declaration order, the steps whose longest chain of
   predecessors has `k` elements; no level is empty and every step has a level.
   */
  ghost predicate IsLevels(g: Graph, ids: seq<Id>, levels: seq<seq<Id>>) {
    && AllOfDepth(g, ids, levels)
    && (forall v :: v in g ==> ChainsAtMost(g, v, |levels|))
  }

  lemma DepthUnique(g: Graph, v: Id, j: nat, k: nat)
    requires AtDepth(g, v, j) && AtDepth(g, v, k)
    ensures j == k
  {
    var c :| ChainTo(g, c, v) && |c| == j + 1;
    var d :| ChainTo(g, d, v) && |d| == k + 1;
  }

  lemma DepthExists(g: Graph, v: Id, bound: nat) returns (k: nat)
    requires v in g && ChainsAtMost(g, v, bound)
    ensures k < bound && AtDepth(g, v, k)
  {
    ChainsAtMostZero(g, v);
    if ChainsAtMost(g, v, bound - 1) {
      k := DepthExists(g, v, bound - 1);
    } else {
      DepthFromBounds(g, v, bound - 1);
      k := bound - 1;
    }
  }

  /** The levels partition the steps: every step is in exactly one. */
  lemma {:induction false} LevelsPartition(g: Graph, ids: seq<Id>, levels: seq<seq<Id>>, v: Id)
    requires IsLevels(g, ids, levels) && g.Keys == Elements(ids) && v in g
    ensures exists k :: 0 <= k < |levels| && v in levels[k]
    ensures forall j, k :: 0 <= j < |levels| && 0 <= k < |levels| && v in levels[j] && v in levels[k] ==> j == k
  {
    var k := DepthExists(g, v, |levels|);
    assert v in levels[k];
    forall i, j | 0 <= i < |levels| && 0 <= j < |levels| && v in levels[i] && v in levels[j]
      ensures i == j
    {
      DepthUnique(g, v, i, j);
    }
  }

  /** A step's dependencies are all in earlier levels, so a level's steps can run side by side. */
  lemma {:induction false} DependenciesEarlier(g: Graph, ids: seq<Id>, levels: seq<seq<Id>>, k: nat, v: Id, d: Id)
    requires IsLevels(g, ids, levels) && Closed(g) && g.Keys == Elements(ids)
    requires k < |levels| && v in levels[k] && v in g && d in g[v]
    ensures exists j :: 0 <= j < k && d in levels[j]
  {
    ChainsAtMostStep(g, v, k);
    var j := DepthExists(g, d, k);
    assert d in levels[j];
  }

  /** The steps whose dependencies are all resolved. */
  function Unblocked(g: Graph, remaining: seq<Id>, resolved: set<Id>): seq<Id> {
    Filter(remaining, v => v in g && forall d :: d in g[v] ==> d in resolved)
  }

  lemma UnblockedIsNextLevel(g: Graph, ids: seq<Id>, remaining: seq<Id>, resolved: set<Id>, k: nat)
    requires Closed(g) && g.Keys == Elements(ids)
    requires remaining == Filter(ids, v => !ChainsAtMost(g, v, k))
    requires forall v :: v in g ==> (v in resolved <==> ChainsAtMost(g, v, k))
    ensures Unblocked(g, remaining, resolved) == OfDepth(g, ids, k)
    ensures forall v :: v in g ==> (v in resolved || AtDepth(g, v, k) <==> ChainsAtMost(g, v, k + 1))
  {
    forall v | v in g
      ensures (forall d :: d in g[v] ==> d in resolved) <==> ChainsAtMost(g, v, k + 1)
      ensures !ChainsAtMost(g, v, k) && ChainsAtMost(g, v, k + 1) <==> AtDepth(g, v, k)
      ensures ChainsAtMost(g, v, k) ==> ChainsAtMost(g, v, k + 1)
    {
      ChainsAtMostStep(g, v, k);
      if !ChainsAtMost(g, v, k) && ChainsAtMost(g, v, k + 1) {
        DepthFromBounds(g, v, k);
      }
    }
    FilterFilter(ids, v => !ChainsAtMost(g, v, k), v => v in g && forall d :: d in g[v] ==> d in resolved,
                 v => AtDepth(g, v, k));
  }

  lemma BlockedGivesCycle(g: Graph, remaining: seq<Id>, resolved: set<Id>)
    requires Closed(g) && remaining != [] && Unblocked(g, remaining, resolved) == []
    requires forall v :: v in g ==> (v in remaining <==> v !in resolved)
    requires forall v :: v in remaining ==> v in g
    ensures HasCycle(g)
  {
    var within := Elements(remaining);
    assert remaining[0] in within;
    forall v | v in within
      ensures DependsWithin(g, v, within)
    {
      assert v !in Unblocked(g, remaining, resolved);
      var d :| d in g[v] && d !in resolved;
      assert d in within && DependsOn(g, v, d);
    }
    DescentGivesCycle(g, within);
  }

  lemma {:induction false} FilterShrinks(s: seq<Id>, p: Id -> bool, x: Id)
    requires x in s && !p(x)
    ensures |Filter(s, p)| < |s|
  {
    if s[0] == x {
    } else {
      FilterShrinks(s[1..], p, x);
    }
  }

  /** What the loop has settled after some levels. */
  ghost predicate Progress(g: Graph, ids: seq<Id>, levels: seq<seq<Id>>, remaining: seq<Id>, resolved: set<Id>) {
    && AllOfDepth(g, ids, levels)
    && remaining == Filter(ids, v => !ChainsAtMost(g, v, |levels|))
    && resolved <= g.Keys
    && (forall v :: v in g ==> (v in resolved <==> ChainsAtMost(g, v, |levels|)))
  }

  lemma ProgressStart(g: Graph, ids: seq<Id>)
    requires g.Keys == Elements(ids)
    ensures Progress(g, ids, [], ids, {})
  {
    forall v | v in g
      ensures !ChainsAtMost(g, v, 0)
    {
      ChainsAtMostZero(g, v);
    }
    FilterAll(ids, v => !ChainsAtMost(g, v, 0));
  }

  lemma LevelAppended(g: Graph, ids: seq<Id>, levels: seq<seq<Id>>, level: seq<Id>)
    requires AllOfDepth(g, ids, levels) && level != [] && level == OfDepth(g, ids, |levels|)
    ensures AllOfDepth(g, ids, levels + [level])
  {
  }

  /** The members of a level are the steps at its depth. */
  lemma LevelMembers(g: Graph, ids: seq<Id>, level: seq<Id>, k: nat)
    requires g.Keys == Elements(ids) && level == OfDepth(g, ids, k)
    ensures forall v :: v in level ==> v in g
    ensures forall v :: v in g ==> (v in level <==> AtDepth(g, v, k))
  {
    assert forall v :: v in ids <==> v in Elements(ids);
  }

  lemma ResolvedGrows(g: Graph, resolved: set<Id>, level: seq<Id>, atDepth: Id -> bool, within: Id -> bool)
    requires resolved <= g.Keys && forall v :: v in level ==> v in g
    requires forall v :: v in g ==> (v in level <==> atDepth(v))
    requires forall v :: v in g ==> (v in resolved || atDepth(v) <==> within(v))
    ensures resolved + Elements(level) <= g.Keys
    ensures forall v :: v in g ==> (v in resolved + Elements(level) <==> within(v))
  {
  }

  lemma ProgressStep(g: Graph, ids: seq<Id>, levels: seq<seq<Id>>, remaining: seq<Id>, resolved: set<Id>, level: seq<Id>)
    requires Closed(g) && g.Keys == Elements(ids)
    requires Progress(g, ids, levels, remaining, resolved)
    requires level == Unblocked(g, remaining, resolved) != []
    ensures Progress(g, ids, levels + [level], Filter(remaining, v => v !in level), resolved + Elements(level))
    ensures |Filter(remaining, v => v !in level)| < |remaining|
  {
    var k := |levels|;
    UnblockedIsNextLevel(g, ids, remaining, resolved, k);
    LevelAppended(g, ids, levels, level);
    LevelMembers(g, ids, level, k);
    ResolvedGrows(g, resolved, level, v => AtDepth(g, v, k), v => ChainsAtMost(g, v, k + 1));
    RemainingAfter(g, ids, remaining, level, k);
    assert |levels + [level]| == k + 1;
    FilterShrinks(remaining, v => v !in level, level[0]);
  }

  lemma RemainingAfter(g: Graph, ids: seq<Id>, remaining: seq<Id>, level: seq<Id>, k: nat)
    requires g.Keys == Elements(ids)
    requires remaining == Filter(ids, v => !ChainsAtMost(g, v, k))
    requires forall v :: v in g ==> (v in level <==> AtDepth(g, v, k))
    requires forall v :: v in g ==> (ChainsAtMost(g, v, k) || AtDepth(g, v, k) <==> ChainsAtMost(g, v, k + 1))
    ensures Filter(remaining, v => v !in level) == Filter(ids, v => !ChainsAtMost(g, v, k + 1))
  {
    FilterFilter(ids, v => !ChainsAtMost(g, v, k), v => v !in level, v => !ChainsAtMost(g, v, k + 1));
  }

  /** Throws exactly when some dependency can never be satisfied, that is, on a cycle. */
  method Compute(g: Graph, ids: seq<Id>) returns (r: Result<seq<seq<Id>>>)
    requires Closed(g) && g.Keys == Elements(ids) && Distinct(ids)
    ensures r.Err? <==> HasCycle(g)
    ensures r.Ok? ==> IsLevels(g, ids, r.value)
  {
    var remaining := ids;
    var resolved: set<Id> := {};
    var levels: seq<seq<Id>> := [];
    ghost var order: seq<Id> := [];
    ProgressStart(g, ids);
    while remaining != []
      invariant Progress(g, ids, levels, remaining, resolved)
      invariant IsTopological(g, order) && Elements(order) == resolved
      decreases |remaining|
    {
      var level := Unblocked(g, remaining, resolved);
      if level == [] {
        BlockedGivesCycle(g, remaining, resolved);
        return Err(InvalidArgument);
      }
      ProgressStep(g, ids, levels, remaining, resolved, level);
      order := AppendLevel(g, order, level);
      remaining := Filter(remaining, v => v !in level);
      resolved := resolved + set v | v in level;
      levels := levels + [level];
    }
    forall v | v in g
      ensures v in resolved
    {
      assert v in ids && v !in remaining;
    }
    TopologicalAcyclic(g, order);
    return Ok(levels);
  }

  lemma AppendLevel(g: Graph, order: seq<Id>, level: seq<Id>) returns (longer: seq<Id>)
    requires IsTopological(g, order)
    requires forall v, d :: v in level && DependsOn(g, v, d) ==> d in order
    ensures IsTopological(g, longer) && Elements(longer) == Elements(order) + Elements(level)
    decreases level
  {
    if level == [] {
      longer := order;
    } else {
      TopologicalAppend(g, order, level[0]);
      longer := AppendLevel(g, order + [level[0]], level[1..]);
    }
  }
}
