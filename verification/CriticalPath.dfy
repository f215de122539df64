/** The memoised search for the most expensive dependency chain (`PlanningEngine.criticalPath`). */
module CriticalPath {
  import opened Prelude
  import opened Dag
  import opened Levels

  type Costs = map<Id, real>

  datatype Best = Best(cost: real, path: seq<Id>)

  ghost predicate Priced(g: Graph, cost: Costs) {
    g.Keys <= cost.Keys && forall v :: v in g ==> cost[v] >= 0.0
  }

  ghost function ChainCost(cost: Costs, c: seq<Id>): (total: real)
    requires forall v :: v in c ==> v in cost
  {
    if c == [] then 0.0 else ChainCost(cost, c[..|c| - 1]) + cost[c[|c| - 1]]
  }

  ghost predicate Beats(g: Graph, cost: Costs, v: Id, bound: real)
    requires Priced(g, cost)
  {
    forall c :: ChainTo(g, c, v) ==> ChainCost(cost, c) <= bound
  }

  /** `b` is a most expensive chain among those that end at `v`. */
  ghost predicate IsBestTo(g: Graph, cost: Costs, v: Id, b: Best)
    requires Priced(g, cost)
  {
    ChainTo(g, b.path, v) && b.cost == ChainCost(cost, b.path) && Beats(g, cost, v, b.cost)
  }

  /** `b` is a most expensive chain of the graph; only when nothing costs anything may it be empty. */
  ghost predicate IsCritical(g: Graph, cost: Costs, b: Best)
    requires Priced(g, cost)
  {
    && IsChain(g, b.path)
    && b.cost == ChainCost(cost, b.path)
    && forall v :: v in g ==> Beats(g, cost, v, b.cost)
  }

  /** Extending the best chain into a dependency gives the best chain to the step. */
  lemma BestExtends(g: Graph, cost: Costs, v: Id, best: Best)
    requires Priced(g, cost) && v in g
    requires IsChain(g, best.path) && best.cost == ChainCost(cost, best.path) && best.cost >= 0.0
    requires best.path != [] ==> DependsOn(g, v, best.path[|best.path| - 1])
    requires forall d :: d in g[v] ==> Beats(g, cost, d, best.cost)
    ensures IsBestTo(g, cost, v, Best(best.cost + cost[v], best.path + [v]))
  {
    var path := best.path + [v];
    assert path[..|path| - 1] == best.path;
    forall c | ChainTo(g, c, v)
      ensures ChainCost(cost, c) <= best.cost + cost[v]
    {
      if |c| >= 2 {
        var front := c[..|c| - 1];
        assert DependsOn(g, c[|c| - 2 + 1], c[|c| - 2]);
        assert ChainTo(g, front, c[|c| - 2]);
      } else {
        assert c[..|c| - 1] == [];
      }
    }
  }

  lemma DependencyEarlier(g: Graph, order: seq<Id>, v: Id, d: Id)
    requires IsTopological(g, order) && v in order && v in g && d in g[v]
    ensures DependsOn(g, v, d) && d in order && IndexOf(order, d) < IndexOf(order, v)
  {
    TrailDescends(g, order, [v, d]);
  }

  ghost predicate AllBeaten(g: Graph, cost: Costs, ids: seq<Id>, bound: real)
    requires Priced(g, cost)
  {
    forall d :: d in ids ==> Beats(g, cost, d, bound)
  }

  lemma OneMoreBeaten(g: Graph, cost: Costs, ids: seq<Id>, i: nat, before: real, bound: real)
    requires Priced(g, cost) && i < |ids| && AllBeaten(g, cost, ids[..i], before) && before <= bound && Beats(g, cost, ids[i], bound)
    ensures AllBeaten(g, cost, ids[..i + 1], bound)
  {
    assert ids[..i + 1] == ids[..i] + [ids[i]];
    forall d | d in ids[..i + 1]
      ensures Beats(g, cost, d, bound)
    {
      assert d != ids[i] ==> Beats(g, cost, d, before);
    }
  }

  class Search {
    const g: Graph
    const cost: Costs
    ghost const order: seq<Id>
    var memo: map<Id, Best>

    constructor (g: Graph, cost: Costs, ghost order: seq<Id>)
      requires Priced(g, cost) && Closed(g) && IsTopological(g, order) && g.Keys <= Elements(order)
      ensures this.g == g && this.cost == cost && Valid()
    {
      this.g, this.cost, this.order := g, cost, order;
      memo := map[];
    }

    ghost predicate Valid()
      reads this
    {
      && Priced(g, cost) && Closed(g)
      && IsTopological(g, order) && g.Keys <= Elements(order)
      && forall v :: v in memo ==> v in g && memo[v].cost >= 0.0 && IsBestTo(g, cost, v, memo[v])
    }

    /** Called on a step; `order` shows that the recursion ends. */
    method Walk(v: Id) returns (r: Best)
      requires Valid() && v in g && v in order
      modifies this`memo
      ensures Valid() && r.cost >= 0.0 && IsBestTo(g, cost, v, r)
      decreases IndexOf(order, v), 1
    {
      if v in memo { return memo[v]; }
      var best := Heaviest(v);
      BestExtends(g, cost, v, best);
      r := Best(best.cost + cost[v], best.path + [v]);
      memo := memo[v := r];
    }

    /** The loop over the dependencies: the most expensive chain that ends at one of them. */
    method Heaviest(v: Id) returns (best: Best)
      requires Valid() && v in g && v in order
      modifies this`memo
      ensures Valid() && best.cost >= 0.0 && IsChain(g, best.path) && best.cost == ChainCost(cost, best.path)
      ensures best.path != [] ==> DependsOn(g, v, best.path[|best.path| - 1])
      ensures AllBeaten(g, cost, g[v], best.cost)
      decreases IndexOf(order, v), 0
    {
      best := Best(0.0, []);
      for i := 0 to |g[v]|
        invariant Valid() && best.cost >= 0.0
        invariant IsChain(g, best.path) && best.cost == ChainCost(cost, best.path)
        invariant best.path != [] ==> DependsOn(g, v, best.path[|best.path| - 1])
        invariant AllBeaten(g, cost, g[v][..i], best.cost)
      {
        var d := g[v][i];
        DependencyEarlier(g, order, v, d);
        ghost var before := best.cost;
        var candidate := Walk(d);
        if candidate.cost > best.cost { best := candidate; }
        OneMoreBeaten(g, cost, g[v], i, before, best.cost);
      }
      assert g[v][..|g[v]|] == g[v];
    }
  }

  method Compute(g: Graph, ids: seq<Id>, cost: Costs, ghost order: seq<Id>) returns (longest: Best)
    requires Priced(g, cost) && Closed(g) && g.Keys == Elements(ids)
    requires IsTopological(g, order) && g.Keys <= Elements(order)
    ensures IsCritical(g, cost, longest)
  {
    var search := new Search(g, cost, order);
    longest := Best(0.0, []);
    for i := 0 to |ids|
      invariant search.Valid() && search.g == g && search.cost == cost && fresh(search)
      invariant longest.cost >= 0.0 && IsChain(g, longest.path) && longest.cost == ChainCost(cost, longest.path)
      invariant forall v :: v in ids[..i] ==> Beats(g, cost, v, longest.cost)
    {
      var candidate := search.Walk(ids[i]);
      if candidate.cost > longest.cost { longest := candidate; }
      assert ids[..i + 1] == ids[..i] + [ids[i]];
    }
    assert ids[..|ids|] == ids;
  }

  lemma {:induction false} UnitChainCost(cost: Costs, c: seq<Id>)
    requires forall v :: v in c ==> v in cost && cost[v] == 1.0
    ensures ChainCost(cost, c) == |c| as real
  {
    if c == [] {
    } else {
      UnitChainCost(cost, c[..|c| - 1]);
    }
  }

  /** With unit costs the critical path visits every level once. */
  lemma {:induction false} UnitCostsGiveLevels(g: Graph, ids: seq<Id>, cost: Costs, levels: seq<seq<Id>>, b: Best)
    requires Priced(g, cost) && g.Keys == Elements(ids) && forall v :: v in g ==> cost[v] == 1.0
    requires IsLevels(g, ids, levels) && IsCritical(g, cost, b)
    ensures |b.path| == |levels|
  {
    UnitChainCost(cost, b.path);
    if b.path != [] {
      assert ChainTo(g, b.path, b.path[|b.path| - 1]);
    }
    if levels != [] {
      var v := levels[|levels| - 1][0];
      assert v in OfDepth(g, ids, |levels| - 1);
      var c :| ChainTo(g, c, v) && |c| == |levels|;
      UnitChainCost(cost, c);
    }
  }
}
