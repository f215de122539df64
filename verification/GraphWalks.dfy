/** Walks in a graph, their weight, and what a shortest path is. */
module GraphWalks {
  import opened Prelude
  import opened GraphModel

  /** `e` can be followed from `a` to `b`. */
  predicate Step(g: Graph, direction: Direction, a: Id, e: Edge, b: Id) {
    IsEdge(g, e) && Leaves(e, a, direction) && b == OtherEnd(e, a)
  }

  ghost predicate IsWalk(g: Graph, direction: Direction, nodes: seq<Id>, edges: seq<Edge>) {
    && |nodes| == |edges| + 1
    && (forall i :: 0 <= i < |nodes| ==> nodes[i] in g.nodes)
    && (forall i :: 0 <= i < |edges| ==> Step(g, direction, nodes[i], edges[i], nodes[i + 1]))
  }

  ghost predicate WalkFromTo(g: Graph, direction: Direction, from: Id, to: Id, nodes: seq<Id>, edges: seq<Edge>) {
    IsWalk(g, direction, nodes, edges) && nodes[0] == from && nodes[|nodes| - 1] == to
  }

  function Weight(edges: seq<Edge>): real {
    if edges == [] then 0.0 else Weight(edges[..|edges| - 1]) + edges[|edges| - 1].weight
  }

  lemma WeightPrepend(e: Edge, edges: seq<Edge>)
    ensures Weight([e] + edges) == e.weight + Weight(edges)
  {
    if edges == [] {
      assert ([e] + edges)[..0] == [];
    } else {
      WeightPrepend(e, edges[..|edges| - 1]);
      assert ([e] + edges)[..|edges|] == [e] + edges[..|edges| - 1];
    }
  }

  /** What `shortestPath` promises about a path. */
  ghost predicate IsShortest(g: Graph, direction: Direction, from: Id, to: Id, p: Path) {
    && WalkFromTo(g, direction, from, to, p.nodes, p.edges)
    && p.totalWeight == Weight(p.edges)
    && forall nodes, edges :: WalkFromTo(g, direction, from, to, nodes, edges) ==> p.totalWeight <= Weight(edges)
  }

  lemma TrivialPath(g: Graph, direction: Direction, v: Id)
    requires g.WellFormed() && v in g.nodes
    ensures IsShortest(g, direction, v, v, Path([v], [], 0.0))
  {
    forall nodes, edges | WalkFromTo(g, direction, v, v, nodes, edges)
      ensures 0.0 <= Weight(edges)
    {
      WeightNonNegative(g, direction, nodes, edges);
    }
  }

  ghost predicate Reachable(g: Graph, direction: Direction, from: Id, to: Id) {
    exists nodes, edges :: WalkFromTo(g, direction, from, to, nodes, edges)
  }

  lemma WeightNonNegative(g: Graph, direction: Direction, nodes: seq<Id>, edges: seq<Edge>)
    requires g.WellFormed() && IsWalk(g, direction, nodes, edges)
    ensures Weight(edges) >= 0.0
  {
    if edges == [] {
    } else {
      WeightNonNegative(g, direction, nodes[..|edges|], edges[..|edges| - 1]);
      assert Step(g, direction, nodes[|edges| - 1], edges[|edges| - 1], nodes[|edges|]);
    }
  }
}
