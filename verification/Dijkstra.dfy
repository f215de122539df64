/** The reasoning behind `shortestPath`: what the labels of Dijkstra's algorithm mean and how its steps keep it. */
module Dijkstra {
  import opened Prelude
  import opened GraphModel
  import opened GraphWalks

  /** `edge.from === cursor ? edge.to : edge.from`, the move of the reconstruction loop. */
  function Before(previous: map<Id, Edge>, v: Id): Id
    requires v in previous
  {
    OtherEnd(previous[v], v)
  }

  predicate Covers(distances: map<Id, real>, bound: real, v: Id) {
    v in distances && distances[v] <= bound
  }

  /** The search at some moment; `visited` numbers the nodes no longer in `unvisited` in the order they were visited. */
  datatype Labels = Labels(
    g: Graph, direction: Direction, from: Id,
    visited: map<Id, nat>, distances: map<Id, real>, previous: map<Id, Edge>
  ) {
    /** `previous` leads from `v` to a node visited earlier, over an edge that accounts for its distance. */
    ghost predicate Hangs(v: Id) {
      && v in previous && v in distances
      && var u := Before(previous, v);
         && u in visited && u in distances && Step(g, direction, u, previous[v], v)
         && distances[v] == distances[u] + previous[v].weight
         && (v in visited ==> visited[u] < visited[v])
    }

    ghost predicate Tree() {
      forall v {:trigger Hangs(v)} :: v in distances && v != from ==> Hangs(v)
    }

    ghost predicate Ranked() {
      forall v :: v in visited ==> visited[v] < |visited|
    }

    /** Visited nodes are at most as far as the others. */
    ghost predicate Settled() {
      forall u, v :: u in visited && u in distances && v in distances && v !in visited ==> distances[u] <= distances[v]
    }

    ghost predicate Explored() {
      && from in distances && distances[from] == 0.0
      && visited.Keys <= distances.Keys <= g.nodes.Keys
      && Ranked() && Tree() && Settled()
      && (from in visited || (visited.Keys == {} && distances.Keys == {from}))
    }

    /** Every edge out of a visited node has been relaxed, except those of `current` still to do. */
    ghost predicate RelaxedExcept(current: Id, todo: set<Edge>) {
      forall u, e, v :: u in visited && u in distances && Step(g, direction, u, e, v) && (u == current ==> e !in todo)
        ==> Covers(distances, distances[u] + e.weight, v)
    }

    ghost predicate Relaxed() {
      RelaxedExcept(from, {})
    }

    /** The labels are those of the loop's `distances` and `previous`. */
    ghost predicate Holds(distances: map<Id, real>, previous: map<Id, Edge>) {
      this.distances == distances && this.previous == previous
    }

    ghost predicate SameSearch(s: Labels) {
      g == s.g && direction == s.direction && from == s.from
    }

    /** An unvisited node at the least known distance. */
    ghost predicate Nearest(v: Id) {
      v in distances && v !in visited && forall x :: x in distances && x !in visited ==> distances[v] <= distances[x]
    }

    ghost predicate Farthest(v: Id) {
      v in distances && forall u :: u in visited && u in distances ==> distances[u] <= distances[v]
    }
  }

  /** A walk from the start stays within its end's settled distance, or has passed an unvisited node no further than itself. */
  lemma WalkBound(s: Labels, nodes: seq<Id>, edges: seq<Edge>)
    requires s.g.WellFormed() && s.Relaxed() && s.visited.Keys <= s.distances.Keys
    requires s.from in s.distances && s.distances[s.from] == 0.0
    requires IsWalk(s.g, s.direction, nodes, edges) && nodes[0] == s.from
    ensures (nodes[|edges|] in s.visited && s.distances[nodes[|edges|]] <= Weight(edges))
      || exists x :: x in s.distances && x !in s.visited && s.distances[x] <= Weight(edges)
  {
    if edges == [] {
      assert nodes[0] in s.distances;
    } else {
      var last := |edges| - 1;
      assert Step(s.g, s.direction, nodes[last], edges[last], nodes[last + 1]);
      WalkBound(s, nodes[..|edges|], edges[..last]);
      if nodes[last] in s.visited && s.distances[nodes[last]] <= Weight(edges[..last]) {
        assert Covers(s.distances, s.distances[nodes[last]] + edges[last].weight, nodes[|edges|]);
      }
    }
  }

  /** When the target is the nearest unvisited node, no walk to it is shorter than its distance. */
  lemma TargetNearest(s: Labels, to: Id)
    requires Searching(s) && s.Nearest(to)
    ensures forall nodes, edges :: WalkFromTo(s.g, s.direction, s.from, to, nodes, edges) ==> s.distances[to] <= Weight(edges)
  {
    forall nodes, edges | WalkFromTo(s.g, s.direction, s.from, to, nodes, edges)
      ensures s.distances[to] <= Weight(edges)
    {
      WalkBound(s, nodes, edges);
    }
  }

  /** When every node with a distance is visited and the target is not, the target is unreachable. */
  lemma NothingLeft(s: Labels, to: Id)
    requires Searching(s) && s.visited.Keys == s.distances.Keys && to !in s.visited
    ensures !Reachable(s.g, s.direction, s.from, to)
  {
    forall nodes, edges
      ensures !WalkFromTo(s.g, s.direction, s.from, to, nodes, edges)
    {
      if WalkFromTo(s.g, s.direction, s.from, to, nodes, edges) {
        WalkBound(s, nodes, edges);
      }
    }
  }

  /** `unvisited.delete(current)` */
  function Visited(s: Labels, current: Id): Labels {
    s.(visited := s.visited[current := |s.visited|])
  }

  lemma VisitKeepsTree(s: Labels, current: Id)
    requires s.Ranked() && s.Tree() && current !in s.visited
    ensures Visited(s, current).Ranked() && Visited(s, current).Tree()
  {
    var t := Visited(s, current);
    assert t.visited.Keys == s.visited.Keys + {current};
    assert |t.visited| == |s.visited| + 1;
    forall v | v in s.distances && v != s.from
      ensures t.Hangs(v)
    {
      assert s.Hangs(v);
    }
  }

  lemma VisitKeepsExplored(s: Labels, current: Id)
    requires s.Explored() && s.Nearest(current)
    ensures Visited(s, current).Explored() && Visited(s, current).Farthest(current)
    ensures current in Visited(s, current).visited && s.from in Visited(s, current).visited
  {
    VisitKeepsTree(s, current);
    assert Visited(s, current).visited.Keys == s.visited.Keys + {current};
  }

  /** Visiting the nearest node leaves only its own edges to relax. */
  lemma VisitKeepsCovers(s: Labels, current: Id, todo: set<Edge>)
    requires s.Relaxed()
    requires forall e :: IsEdge(s.g, e) && Leaves(e, current, s.direction) ==> e in todo
    ensures Visited(s, current).RelaxedExcept(current, todo)
  {
    var t := Visited(s, current);
    forall u, e, v | u in t.visited && u in t.distances && Step(t.g, t.direction, u, e, v) && (u == current ==> e !in todo)
      ensures Covers(t.distances, t.distances[u] + e.weight, v)
    {
      assert u in s.visited;
    }
  }

  predicate Improves(s: Labels, current: Id, edge: Edge)
    requires current in s.distances
  {
    OtherEnd(edge, current) !in s.visited && !Covers(s.distances, s.distances[current] + edge.weight, OtherEnd(edge, current))
  }

  function Improved(s: Labels, current: Id, edge: Edge): Labels
    requires current in s.distances
  {
    var v := OtherEnd(edge, current);
    s.(distances := s.distances[v := s.distances[current] + edge.weight], previous := s.previous[v := edge])
  }

  /** Relaxing an edge that improves a label keeps the labels meaningful. */
  lemma RelaxKeepsExplored(s: Labels, current: Id, edge: Edge)
    requires s.g.WellFormed() && s.Explored() && s.from in s.visited && current in s.visited && s.Farthest(current)
    requires IsEdge(s.g, edge) && Leaves(edge, current, s.direction) && Improves(s, current, edge)
    ensures Improved(s, current, edge).Explored() && Improved(s, current, edge).Farthest(current)
  {
    RelaxKeepsTree(s, current, edge);
  }

  lemma RelaxKeepsTree(s: Labels, current: Id, edge: Edge)
    requires s.g.WellFormed() && s.Tree() && s.from in s.visited && current in s.visited && current in s.distances
    requires IsEdge(s.g, edge) && Leaves(edge, current, s.direction) && Improves(s, current, edge)
    ensures Improved(s, current, edge).Tree()
  {
    var v, t := OtherEnd(edge, current), Improved(s, current, edge);
    assert Step(s.g, s.direction, current, edge, v) && Before(t.previous, v) == current;
    forall x | x in t.distances && x != t.from
      ensures t.Hangs(x)
    {
      if x != v {
        assert s.Hangs(x);
      }
    }
  }

  lemma RelaxKeepsCovers(s: Labels, current: Id, edge: Edge, todo: set<Edge>)
    requires s.Explored() && current in s.visited && s.RelaxedExcept(current, todo)
    requires IsEdge(s.g, edge) && Leaves(edge, current, s.direction) && Improves(s, current, edge)
    ensures Improved(s, current, edge).RelaxedExcept(current, todo - {edge})
  {
    var t := Improved(s, current, edge);
    forall u, e, x | u in t.visited && u in t.distances && Step(t.g, t.direction, u, e, x) && (u == current ==> e !in todo - {edge})
      ensures Covers(t.distances, t.distances[u] + e.weight, x)
    {
      if u != current || e !in todo {
        assert Covers(s.distances, s.distances[u] + e.weight, x);
      }
    }
  }

  lemma SkipKeepsCovers(s: Labels, current: Id, edge: Edge, todo: set<Edge>)
    requires s.g.WellFormed() && s.Explored() && current in s.visited && s.Farthest(current)
    requires s.RelaxedExcept(current, todo) && IsEdge(s.g, edge) && !Improves(s, current, edge)
    ensures s.RelaxedExcept(current, todo - {edge})
  {
    forall u, e, x | u in s.visited && Step(s.g, s.direction, u, e, x) && (u == current ==> e !in todo - {edge})
      ensures Covers(s.distances, s.distances[u] + e.weight, x)
    {
      if u == current && e == edge {
        assert x == OtherEnd(edge, current) && edge.weight > 0.0;
      }
    }
  }

  /** What the relaxation loop keeps. */
  ghost predicate Relaxing(s: Labels, current: Id, todo: set<Edge>) {
    && s.g.WellFormed() && s.Explored() && s.from in s.visited && current in s.visited && s.Farthest(current)
    && s.RelaxedExcept(current, todo)
  }

  /** One round of the relaxation loop. */
  function RelaxOne(s: Labels, current: Id, edge: Edge): Labels
    requires current in s.distances
  {
    if Improves(s, current, edge) then Improved(s, current, edge) else s
  }

  lemma RelaxOneKeeps(s: Labels, current: Id, edge: Edge, todo: set<Edge>)
    requires Relaxing(s, current, todo) && IsEdge(s.g, edge) && Leaves(edge, current, s.direction)
    ensures Relaxing(RelaxOne(s, current, edge), current, todo - {edge})
    ensures RelaxOne(s, current, edge).distances[current] == s.distances[current]
    ensures OtherEnd(edge, current) in s.g.nodes
  {
    if Improves(s, current, edge) {
      RelaxKeepsExplored(s, current, edge);
      RelaxKeepsCovers(s, current, edge, todo);
    } else {
      SkipKeepsCovers(s, current, edge, todo);
    }
  }

  lemma FewerRelaxed(s: Labels, current: Id, few: set<Edge>, more: set<Edge>)
    requires few <= more && Relaxing(s, current, few)
    ensures Relaxing(s, current, more)
  {
  }

  /** What the main loop keeps. */
  ghost predicate Searching(s: Labels) {
    s.g.WellFormed() && s.Explored() && s.Relaxed()
  }

  lemma StartRelaxing(s: Labels, current: Id, adjacent: set<Edge>)
    requires Searching(s) && s.Nearest(current)
    requires forall e :: IsEdge(s.g, e) && Leaves(e, current, s.direction) ==> e in adjacent
    ensures Relaxing(Visited(s, current), current, adjacent)
  {
    VisitKeepsExplored(s, current);
    VisitKeepsCovers(s, current, adjacent);
  }

  lemma DoneRelaxing(s: Labels, current: Id)
    requires Relaxing(s, current, {})
    ensures Searching(s)
  {
  }

  /** One move of the reconstruction loop extends the walk towards the start. */
  lemma PrependStep(g: Graph, direction: Direction, u: Id, e: Edge, nodes: seq<Id>, edges: seq<Edge>, to: Id)
    requires g.WellFormed() && u in g.nodes && nodes != [] && WalkFromTo(g, direction, nodes[0], to, nodes, edges)
    requires Step(g, direction, u, e, nodes[0])
    ensures WalkFromTo(g, direction, u, to, [u] + nodes, [e] + edges)
    ensures Weight([e] + edges) == e.weight + Weight(edges)
  {
    WeightPrepend(e, edges);
    forall i | 0 <= i < |edges| + 1
      ensures Step(g, direction, ([u] + nodes)[i], ([e] + edges)[i], ([u] + nodes)[i + 1])
    {
      if i > 0 {
        assert Step(g, direction, nodes[i - 1], edges[i - 1], nodes[i - 1 + 1]);
      }
    }
  }
}
