/**
 The in-memory property graph of `knowledge-graph.ts`: incremental adjacency
 indexes, breadth-first traversal and weighted shortest paths.

 The adjacency indexes keep the order in which edges were added, and the order of
 traversals follows from it. Loops over all nodes or edges of the graph take them
 in an arbitrary order, so their results hold for every order.
 */
module KnowledgeGraph {
  import opened Prelude
  import opened Dijkstra
  import opened GraphModel
  import opened GraphHops
  import opened GraphQueue
  import opened GraphWalks

  class KnowledgeGraph {
    var nodes: map<Id, Node>
    var edges: map<Id, Edge>
    var outgoing: Index
    var incoming: Index

    function Contents(): Graph
      reads this
    {
      Graph(nodes, edges)
    }

    function View(): Listing
      reads this
    {
      Listing(Contents(), outgoing, incoming)
    }

    /** The indexes hold exactly the edges of the graph, at both of their ends. */
    ghost predicate Valid()
      reads this
    {
      View().Valid()
    }

    constructor ()
      ensures Valid() && Contents() == Graph(map[], map[])
    {
      nodes, edges, outgoing, incoming := map[], map[], map[], map[];
    }

    method AddNode(id: Id, kind: string, labelText: string, properties: map<string, string>, now: int) returns (r: Result<Node>)
      requires Valid()
      modifies this
      ensures Valid()
      ensures r.Ok? <==> !Blank(kind) && !Blank(labelText) && id !in old(nodes)
      ensures r.Ok? ==> r.value == Node(id, kind, labelText, properties, now, now)
      ensures View() == if r.Ok? then WithNode(old(View()), r.value) else old(View())
      ensures r.Ok? ==> nodes == old(nodes)[id := r.value] && edges == old(edges)
    {
      if Blank(kind) || Blank(labelText) { return Err(InvalidArgument); }
      if id in nodes { return Err(Duplicate); }
      var node := Node(id, kind, labelText, properties, now, now);
      NodeAdded(View(), node);
      nodes := nodes[id := node];
      outgoing := outgoing[id := []];
      incoming := incoming[id := []];
      return Ok(node);
    }

    method UpsertNode(id: Id, kind: string, labelText: string, properties: map<string, string>, now: int) returns (r: Result<Node>)
      requires Valid()
      modifies this
      ensures Valid()
      ensures id in old(nodes) ==> r == Ok(old(nodes)[id].(kind := kind, labelText := labelText, properties := old(nodes)[id].properties + properties, updatedAt := now))
      ensures id !in old(nodes) ==> (r.Ok? <==> !Blank(kind) && !Blank(labelText))
      ensures id !in old(nodes) && r.Ok? ==> r.value == Node(id, kind, labelText, properties, now, now)
      ensures edges == old(edges) && nodes == if r.Ok? then old(nodes)[id := r.value] else old(nodes)
    {
      if id !in nodes {
        r := AddNode(id, kind, labelText, properties, now);
        return;
      }
      var merged := nodes[id].(kind := kind, labelText := labelText, properties := nodes[id].properties + properties, updatedAt := now);
      NodeReplaced(View(), merged);
      nodes := nodes[id := merged];
      return Ok(merged);
    }

    method AddEdge(id: Id, kind: string, from: Id, to: Id, weight: real) returns (r: Result<Edge>)
      requires Valid()
      modifies this
      ensures Valid()
      ensures r.Ok? <==> !Blank(kind) && from in old(nodes) && to in old(nodes) && weight > 0.0 && id !in old(edges)
      ensures r.Ok? ==> r.value == Edge(id, kind, from, to, weight)
      ensures View() == if r.Ok? then WithEdge(old(View()), r.value) else old(View())
      ensures r.Ok? ==> edges == old(edges)[id := r.value] && nodes == old(nodes)
      ensures r.Ok? ==> outgoing[from] == old(outgoing)[from] + [id] && incoming[to] == old(incoming)[to] + [id]
    {
      if Blank(kind) { return Err(InvalidArgument); }
      if from !in nodes || to !in nodes { return Err(NotFound); }
      if weight <= 0.0 { return Err(InvalidArgument); }
      if id in edges { return Err(Duplicate); }
      var edge := Edge(id, kind, from, to, weight);
      EdgeAdded(View(), edge);
      edges := edges[id := edge];
      outgoing := outgoing[from := Added(outgoing[from], id)];
      incoming := incoming[to := Added(incoming[to], id)];
      return Ok(edge);
    }

    method RemoveEdge(id: Id) returns (removed: bool)
      requires Valid()
      modifies this
      ensures Valid()
      ensures removed <==> id in old(edges)
      ensures nodes == old(nodes) && Loses(old(View()), View(), {id})
    {
      if id !in edges {
        NothingLost(View(), {id});
        return false;
      }
      var edge := edges[id];
      EdgeRemoved(View(), edge);
      outgoing := outgoing[edge.from := Deleted(outgoing[edge.from], id)];
      incoming := incoming[edge.to := Deleted(incoming[edge.to], id)];
      edges := edges - {id};
      return true;
    }

    /** The loop of `removeNode`. */
    method RemoveEdges(ids: seq<Id>)
      requires Valid()
      modifies this
      ensures Valid()
      ensures nodes == old(nodes) && Loses(old(View()), View(), Elements(ids))
    {
      NothingLost(View(), {});
      assert Elements(ids[..0]) == {};
      for i := 0 to |ids|
        invariant Valid() && nodes == old(nodes) && Loses(old(View()), View(), Elements(ids[..i]))
      {
        ghost var before := View();
        var _ := RemoveEdge(ids[i]);
        LosesTwice(old(View()), before, View(), Elements(ids[..i]), {ids[i]});
        OneMore(ids, i);
      }
      assert ids[..|ids|] == ids;
    }

    /** Removes a node together with exactly the edges that touch it. */
    method RemoveNode(id: Id) returns (removed: bool)
      requires Valid()
      modifies this
      ensures Valid()
      ensures removed <==> id in old(nodes)
      ensures nodes == old(nodes) - {id}
      ensures Loses(old(View()), View(), Touching(old(Contents()), id))
    {
      if id !in nodes {
        NothingTouches(Contents(), id);
        NothingLost(View(), {});
        return false;
      }
      TouchingListed(View(), id);
      RemoveEdges(outgoing[id] + incoming[id]);
      ghost var cut := View();
      LastRemoved(old(View()), cut, id);
      outgoing := outgoing - {id};
      incoming := incoming - {id};
      nodes := nodes - {id};
      return true;
    }

    /** The edges `adjacentEdges` lists for a node. */
    function AdjacentEdges(id: Id, direction: Direction): (r: seq<Edge>)
      requires id in outgoing && id in incoming
      reads this
      ensures Valid() && id in nodes ==> forall e :: e in r <==> IsEdge(Contents(), e) && Leaves(e, id, direction)
    {
      assert Valid() && id in nodes ==>
          forall e :: e in EdgesNamed(IdsAt(outgoing[id], incoming[id], direction), edges) <==> IsEdge(Contents(), e) && Leaves(e, id, direction) by {
        if Valid() && id in nodes { NamedLeave(View(), id, direction); }
      }
      EdgesNamed(IdsAt(outgoing[id], incoming[id], direction), edges)
    }

    /** The edges at every node, in the order in which a traversal looks at them. */
    ghost function AdjacencyOf(direction: Direction): Adjacency
      reads this
    {
      map n | n in nodes && n in outgoing && n in incoming :: AdjacentEdges(n, direction)
    }

    ghost function SearchFrom(start: Id, direction: Direction, edgeType: Option<string>): Search
      reads this
    {
      Search(Contents(), direction, edgeType, start)
    }

    /** The neighbours of a node, each listed once, in the order of the first edges to them. */
    method Neighbors(id: Id, direction: Direction, edgeType: Option<string>) returns (r: Result<seq<Node>>)
      requires Valid()
      ensures r.Ok? <==> id in nodes
      ensures r.Ok? ==> Lists(Contents(), {}, SearchFrom(id, direction, edgeType).NeighborsOf({id}), r.value)
      ensures r.Ok? ==> InJoinOrder(AdjacencyOf(direction)[id], edgeType, id, IdsOf(r.value))
    {
      if id !in nodes { return Err(NotFound); }
      var collected := Collect(AdjacentEdges(id, direction), id, edgeType, nodes, SearchFrom(id, direction, edgeType));
      return Ok(collected);
    }

    /** One round of `traverse`: lists the unvisited neighbours of the frontier, which ends the line so far. */
    method Widen(frontier: seq<Id>, visited: set<Id>, direction: Direction, edgeType: Option<string>, ghost q: Search, ghost line: seq<Id>)
      returns (found: seq<Node>)
      requires Valid() && q == SearchFrom(q.start, direction, edgeType)
      requires Lined(q, AdjacencyOf(direction), line, frontier, visited)
      ensures Widened(q, AdjacencyOf(direction), line, frontier, |frontier|, visited + q.NeighborsOf(Elements(frontier)), found)
    {
      found := [];
      var seen := visited;
      ghost var edgesOf := AdjacencyOf(direction);
      WidenStarts(q, edgesOf, line, frontier, visited);
      for i := 0 to |frontier|
        invariant Widened(q, edgesOf, line, frontier, i, seen, found)
      {
        InLine(q, line, frontier, i);
        var neighbors := Neighbors(frontier[i], direction, edgeType);
        NeighborsReached(q, SearchFrom(frontier[i], direction, edgeType), edgesOf, line[|line| - |frontier| + i], neighbors.value);
        found, seen := ExpandNext(neighbors.value, q, edgesOf, line, frontier, i, found, seen);
      }
      WidenEnds(q, edgesOf, line, frontier, visited, seen, found);
    }

    /** Breadth-first traversal. */
    method Traverse(start: Id, maxDepth: int, direction: Direction, edgeType: Option<string>) returns (r: Result<seq<Node>>)
      requires Valid()
      ensures r.Ok? <==> start in nodes && maxDepth >= 0
      ensures r.Ok? ==> SearchFrom(start, direction, edgeType).IsTraversal(maxDepth, r.value)
      ensures r.Ok? ==> InQueueOrder(SearchFrom(start, direction, edgeType), AdjacencyOf(direction), [start] + IdsOf(r.value))
    {
      if start !in nodes { return Err(NotFound); }
      if maxDepth < 0 { return Err(InvalidArgument); }
      ghost var q := SearchFrom(start, direction, edgeType);
      var visited := {start};
      var ordered: seq<Node> := [];
      var frontier := [start];
      var depth := 0;
      assert Elements(frontier) == {start};
      ghost var line := [start];
      QueueStarts(q, AdjacencyOf(direction));
      while depth < maxDepth && frontier != []
        invariant 0 <= depth <= maxDepth && Rounds(q, depth, visited, frontier, ordered)
        invariant Lined(q, AdjacencyOf(direction), line, frontier, visited) && line == [start] + IdsOf(ordered)
        decreases maxDepth - depth
      {
        var found := Widen(frontier, visited, direction, edgeType, q, line);
        NextRound(q, depth, visited, frontier, ordered, found);
        NextLine(q, AdjacencyOf(direction), line, frontier, visited, ordered, found);
        ordered := ordered + found;
        line := line + IdsOf(found);
        frontier := IdsOf(found);
        visited := visited + set v | v in frontier;
        depth := depth + 1;
      }
      if depth < maxDepth {
        TraversalDone(q, depth, maxDepth, ordered);
      }
      return Ok(ordered);
    }

    /** The main loop of `shortestPath`. */
    method Explore(from: Id, to: Id, direction: Direction) returns (distances: map<Id, real>, previous: map<Id, Edge>, ghost s: Labels)
      requires Valid() && from in nodes && to in nodes && from != to
      ensures s.g == Contents() && s.direction == direction && s.from == from && s.Holds(distances, previous)
      ensures Searching(s) && to !in s.visited
      ensures if to in distances then s.Nearest(to) else s.visited.Keys == distances.Keys
    {
      distances, previous := map[from := 0.0], map[];
      var unvisited := nodes.Keys;
      s := Labels(Contents(), direction, from, map[], distances, previous);
      while unvisited != {}
        invariant s.g == Contents() && s.direction == direction && s.from == from && s.Holds(distances, previous)
        invariant unvisited == nodes.Keys - s.visited.Keys && to in unvisited
        invariant Searching(s)
        decreases unvisited
      {
        var current := PickNearest(unvisited, distances);
        if current.None? || current.value == to { return; }
        OneLess(nodes.Keys, s.visited.Keys, current.value);
        unvisited := unvisited - {current.value};
        var adjacent := AdjacentEdges(current.value, direction);
        distances, previous, s := VisitNode(current.value, adjacent, unvisited, distances, previous, s);
      }
    }

    /** Dijkstra's algorithm: an optimal walk, or nothing exactly when the target is unreachable. */
    method ShortestPath(from: Id, to: Id, direction: Direction) returns (r: Result<Option<Path>>)
      requires Valid()
      ensures r.Ok? <==> from in nodes && to in nodes
      ensures r.Ok? && r.value.Some? ==> IsShortest(Contents(), direction, from, to, r.value.value)
      ensures r.Ok? && r.value.None? ==> !Reachable(Contents(), direction, from, to)
    {
      if from !in nodes || to !in nodes { return Err(NotFound); }
      if from == to {
        TrivialPath(Contents(), direction, from);
        return Ok(Some(Path([from], [], 0.0)));
      }
      var distances, previous, s := Explore(from, to, direction);
      if to !in distances {
        NothingLeft(s, to);
        return Ok(None);
      }
      TargetNearest(s, to);
      var path := Reconstruct(from, to, distances, previous, s);
      return Ok(Some(path));
    }

    /** `snapshot()`, listing every node and edge once, in the maps' order. */
    method TakeSnapshot() returns (s: Snapshot)
      requires Valid()
      ensures IsSnapshotOf(s, Contents())
    {
      var nodeList := ListValues(nodes);
      var edgeList := ListValues(edges);
      assert forall x :: x in nodeList ==> exists n :: n in nodes && nodes[n] == x;
      assert forall x :: x in edgeList ==> exists e :: e in edges && edges[e] == x;
      return Snapshot(nodeList, edgeList);
    }

    /** `restore` of any snapshot: the last node or edge with an id wins, edges with a missing end are dropped. */
    method Restore(s: Snapshot)
      modifies this
      ensures Contents() == Restored(s)
      ensures outgoing == RestoredOut(nodes, s.edges) && incoming == RestoredIn(nodes, s.edges)
    {
      nodes, edges, outgoing, incoming := map[], map[], map[], map[];
      for i := 0 to |s.nodes|
        invariant nodes == NodesOf(s.nodes[..i]) && edges == map[]
        invariant outgoing == RestoredOut(nodes, []) && incoming == RestoredIn(nodes, [])
      {
        assert s.nodes[..i + 1][..i] == s.nodes[..i];
        var node := s.nodes[i];
        nodes := nodes[node.id := node];
        outgoing := outgoing[node.id := []];
        incoming := incoming[node.id := []];
      }
      assert s.nodes[..|s.nodes|] == s.nodes;
      for i := 0 to |s.edges|
        invariant nodes == NodesOf(s.nodes) && edges == EdgesOf(nodes, s.edges[..i])
        invariant outgoing == RestoredOut(nodes, s.edges[..i]) && incoming == RestoredIn(nodes, s.edges[..i])
      {
        NextRestored(nodes, s.edges, i);
        var edge := s.edges[i];
        if edge.from in nodes && edge.to in nodes {
          edges := edges[edge.id := edge];
          outgoing := outgoing[edge.from := Added(outgoing[edge.from], edge.id)];
          incoming := incoming[edge.to := Added(incoming[edge.to], edge.id)];
        }
      }
      assert s.edges[..|s.edges|] == s.edges;
    }
  }

  /** Restoring one edge more. */
  lemma NextRestored(nodes: map<Id, Node>, edges: seq<Edge>, i: nat)
    requires i < |edges|
    ensures EdgesOf(nodes, edges[..i + 1]) == if Kept(nodes, edges[i]) then EdgesOf(nodes, edges[..i])[edges[i].id := edges[i]] else EdgesOf(nodes, edges[..i])
    ensures RestoredOut(nodes, edges[..i + 1]) == NextOut(nodes, RestoredOut(nodes, edges[..i]), edges[i])
    ensures RestoredIn(nodes, edges[..i + 1]) == NextIn(nodes, RestoredIn(nodes, edges[..i]), edges[i])
  {
    assert edges[..i + 1][..i] == edges[..i];
  }

  function NextOut(nodes: map<Id, Node>, index: Index, e: Edge): Index
    requires index.Keys == nodes.Keys
  {
    if Kept(nodes, e) then index[e.from := Added(index[e.from], e.id)] else index
  }

  function NextIn(nodes: map<Id, Node>, index: Index, e: Edge): Index
    requires index.Keys == nodes.Keys
  {
    if Kept(nodes, e) then index[e.to := Added(index[e.to], e.id)] else index
  }

  /** `ids.flatMap(..)`: the edges that go by these ids. */
  function EdgesNamed(ids: seq<Id>, edges: map<Id, Edge>): (r: seq<Edge>)
    ensures forall e :: e in r <==> exists id :: id in ids && id in edges && edges[id] == e
  {
    if ids == [] then [] else (if ids[0] in edges then [edges[ids[0]]] else []) + EdgesNamed(ids[1..], edges)
  }

  function IdsAt(outgoing: seq<Id>, incoming: seq<Id>, direction: Direction): seq<Id> {
    match direction
    case Outgoing => outgoing
    case Incoming => incoming
    case Both => outgoing + incoming
  }

  lemma ListedLeave(l: Listing, id: Id, direction: Direction, x: Id)
    requires l.Indexed() && id in l.graph.nodes
    ensures x in IdsAt(l.outgoing[id], l.incoming[id], direction) <==> x in l.graph.edges && Leaves(l.graph.edges[x], id, direction)
  {
    assert l.IndexedAt(id);
  }

  lemma NamedLeave(l: Listing, id: Id, direction: Direction)
    requires l.Valid() && id in l.graph.nodes
    ensures forall e :: e in EdgesNamed(IdsAt(l.outgoing[id], l.incoming[id], direction), l.graph.edges) <==> IsEdge(l.graph, e) && Leaves(e, id, direction)
  {
    var ids := IdsAt(l.outgoing[id], l.incoming[id], direction);
    forall e
      ensures e in EdgesNamed(ids, l.graph.edges) <==> IsEdge(l.graph, e) && Leaves(e, id, direction)
    {
      ListedLeave(l, id, direction, e.id);
      if IsEdge(l.graph, e) && Leaves(e, id, direction) { assert e.id in ids; }
      if e in EdgesNamed(ids, l.graph.edges) {
        var x :| x in ids && x in l.graph.edges && l.graph.edges[x] == e;
        ListedLeave(l, id, direction, x);
      }
    }
  }

  lemma OneMore(ids: seq<Id>, i: nat)
    requires i < |ids|
    ensures Elements(ids[..i + 1]) == Elements(ids[..i]) + {ids[i]}
  {
  }

  /** Once the edges that touched a node have gone, the node can go. */
  lemma LastRemoved(before: Listing, cut: Listing, id: Id)
    requires cut.Valid() && id in cut.graph.nodes && Loses(before, cut, Touching(before.graph, id))
    ensures WithoutNode(cut, id).Valid() && Loses(before, WithoutNode(cut, id), Touching(before.graph, id))
  {
    NodeRemoved(cut, id);
    LosesTwice(before, cut, WithoutNode(cut, id), Touching(before.graph, id), {});
    assert Touching(before.graph, id) + {} == Touching(before.graph, id);
  }

  /** The loop of `neighbors`. */
  method Collect(adjacent: seq<Edge>, id: Id, edgeType: Option<string>, nodes: map<Id, Node>, ghost q: Search) returns (collected: seq<Node>)
    requires q.g.WellFormed() && q.g.nodes == nodes && q.start == id && q.edgeType == edgeType
    requires forall e :: e in adjacent <==> IsEdge(q.g, e) && Leaves(e, id, q.direction)
    ensures Lists(q.g, {}, q.NeighborsOf({id}), collected) && InJoinOrder(adjacent, edgeType, id, IdsOf(collected))
  {
    collected := [];
    for i := 0 to |adjacent|
      invariant Collected(q, adjacent, i, collected) && InJoinOrder(adjacent, edgeType, id, IdsOf(collected))
    {
      CollectNext(q, adjacent, i, collected);
      if OfType(adjacent[i], edgeType) {
        var node := nodes[OtherEnd(adjacent[i], id)];
        if node !in collected { collected := collected + [node]; }
      }
    }
    AllCollected(q, adjacent, collected);
  }

  /** The innermost loop of `traverse`: skips the neighbours already visited. */
  method AddUnseen(neighbors: seq<Node>, ghost q: Search, ghost edgesOf: Adjacency, ghost line: seq<Id>, ghost m: nat, found: seq<Node>, seen: set<Id>)
    returns (found': seq<Node>, seen': set<Id>)
    requires q.g.WellFormed() && m < |line| && Growing(q, edgesOf, line, m, seen, found, [])
    requires IsNodes(q.g, neighbors) && Reaches(q, edgesOf, line[m], IdsOf(neighbors))
    ensures seen' == seen + Elements(IdsOf(neighbors)) && Growing(q, edgesOf, line, m + 1, seen', found', [])
  {
    found', seen' := found, seen;
    for j := 0 to |neighbors|
      invariant seen' == seen + Elements(IdsOf(neighbors)[..j]) && Growing(q, edgesOf, line, m, seen', found', IdsOf(neighbors)[..j])
    {
      SeeNext(q, edgesOf, line, m, neighbors, j, seen', found');
      MoreElements(seen, IdsOf(neighbors), j);
      if neighbors[j].id !in seen' {
        seen' := seen' + {neighbors[j].id};
        found' := found' + [neighbors[j]];
      }
    }
    assert IdsOf(neighbors)[..|neighbors|] == IdsOf(neighbors);
    SeenAll(q, edgesOf, line, m, neighbors, seen', found');
  }

  /** Expands one node of the frontier. */
  method ExpandNext(neighbors: seq<Node>, ghost q: Search, ghost edgesOf: Adjacency, ghost line: seq<Id>, ghost frontier: seq<Id>, ghost i: nat,
                    found: seq<Node>, seen: set<Id>)
    returns (found': seq<Node>, seen': set<Id>)
    requires q.g.WellFormed() && i < |frontier| && Widened(q, edgesOf, line, frontier, i, seen, found)
    requires Elements(IdsOf(neighbors)) == q.NeighborsOf({frontier[i]}) && IsNodes(q.g, neighbors)
    requires Reaches(q, edgesOf, line[|line| - |frontier| + i], IdsOf(neighbors))
    ensures Widened(q, edgesOf, line, frontier, i + 1, seen', found')
  {
    found', seen' := AddUnseen(neighbors, q, edgesOf, line, |line| - |frontier| + i, found, seen);
    WidenNext(q, edgesOf, line, frontier, i, seen, found, seen', found', IdsOf(neighbors));
  }

  /** The selection loop of `shortestPath`: the first unvisited node at the least known distance. */
  method PickNearest(unvisited: set<Id>, distances: map<Id, real>) returns (current: Option<Id>)
    ensures current.None? ==> forall v :: v in unvisited ==> v !in distances
    ensures current.Some? ==> current.value in unvisited && current.value in distances
    ensures current.Some? ==> forall v :: v in unvisited && v in distances ==> distances[current.value] <= distances[v]
  {
    current := None;
    var rest := unvisited;
    while rest != {}
      invariant rest <= unvisited
      invariant current.None? ==> forall v :: v in unvisited && v !in rest ==> v !in distances
      invariant current.Some? ==> current.value in unvisited && current.value in distances
      invariant current.Some? ==> forall v :: v in unvisited && v !in rest && v in distances ==> distances[current.value] <= distances[v]
    {
      var candidate :| candidate in rest;
      rest := rest - {candidate};
      if candidate in distances && (current.None? || distances[candidate] < distances[current.value]) {
        current := Some(candidate);
      }
    }
  }

  lemma OneLess(all: set<Id>, gone: set<Id>, x: Id)
    ensures all - gone - {x} == all - (gone + {x})
  {
  }

  lemma VisitedKeys(s: Labels, current: Id)
    ensures Visited(s, current).visited.Keys == s.visited.Keys + {current}
  {
  }

  /** Marks a nearest node visited and relaxes the edges that leave it; `s` is the search so far. */
  method VisitNode(current: Id, adjacent: seq<Edge>, unvisited: set<Id>, distances: map<Id, real>, previous: map<Id, Edge>, ghost s: Labels)
    returns (distances': map<Id, real>, previous': map<Id, Edge>, ghost t: Labels)
    requires Searching(s) && s.Nearest(current) && s.Holds(distances, previous)
    requires unvisited == s.g.nodes.Keys - s.visited.Keys - {current}
    requires forall e :: e in adjacent <==> IsEdge(s.g, e) && Leaves(e, current, s.direction)
    ensures t.SameSearch(s) && t.visited.Keys == s.visited.Keys + {current} && t.Holds(distances', previous') && Searching(t)
  {
    StartRelaxing(s, current, Elements(adjacent));
    VisitedKeys(s, current);
    OneLess(s.g.nodes.Keys, s.visited.Keys, current);
    distances', previous', t := RelaxAll(current, adjacent, unvisited, distances, previous, Visited(s, current));
    DoneRelaxing(t, current);
  }

  /** The relaxation loop of `shortestPath` over the edges of a node just visited. */
  method RelaxAll(current: Id, adjacent: seq<Edge>, unvisited: set<Id>, distances: map<Id, real>, previous: map<Id, Edge>, ghost s: Labels)
    returns (distances': map<Id, real>, previous': map<Id, Edge>, ghost t: Labels)
    requires unvisited == s.g.nodes.Keys - s.visited.Keys && s.Holds(distances, previous)
    requires forall e :: e in adjacent ==> IsEdge(s.g, e) && Leaves(e, current, s.direction)
    requires Relaxing(s, current, Elements(adjacent))
    ensures t.SameSearch(s) && t.visited == s.visited && t.Holds(distances', previous') && Relaxing(t, current, {})
  {
    distances', previous', t := distances, previous, s;
    var best := distances[current];
    assert adjacent[0..] == adjacent;
    for i := 0 to |adjacent|
      invariant t.SameSearch(s) && t.visited == s.visited && t.Holds(distances', previous')
      invariant Relaxing(t, current, Elements(adjacent[i..])) && distances'[current] == best
    {
      RelaxOneKeeps(t, current, adjacent[i], Elements(adjacent[i..]));
      distances', previous', t := RelaxEdge(current, adjacent[i], best, unvisited, distances', previous', t);
      FewerRelaxed(t, current, Elements(adjacent[i..]) - {adjacent[i]}, Elements(adjacent[i + 1..]));
    }
  }

  /** The body of that loop. */
  method RelaxEdge(current: Id, edge: Edge, best: real, unvisited: set<Id>, distances: map<Id, real>, previous: map<Id, Edge>, ghost s: Labels)
    returns (distances': map<Id, real>, previous': map<Id, Edge>, ghost t: Labels)
    requires s.Holds(distances, previous) && unvisited == s.g.nodes.Keys - s.visited.Keys
    requires current in distances && distances[current] == best && OtherEnd(edge, current) in s.g.nodes
    ensures t == RelaxOne(s, current, edge) && t.Holds(distances', previous')
  {
    distances', previous', t := distances, previous, RelaxOne(s, current, edge);
    var neighbor := OtherEnd(edge, current);
    if neighbor !in unvisited { return; }
    var candidate := best + edge.weight;
    if neighbor in distances && distances[neighbor] <= candidate { return; }
    distances' := distances[neighbor := candidate];
    previous' := previous[neighbor := edge];
  }

  /** The reconstruction loop of `shortestPath`; every node on the way has a predecessor. */
  method Reconstruct(from: Id, to: Id, distances: map<Id, real>, previous: map<Id, Edge>, ghost s: Labels) returns (path: Path)
    requires s.g.WellFormed() && s.from == from && s.Holds(distances, previous)
    requires s.Explored() && to in distances
    ensures WalkFromTo(s.g, s.direction, from, to, path.nodes, path.edges)
    ensures path.totalWeight == Weight(path.edges) == distances[to]
  {
    var nodeList, usedEdges, cursor := [to], [], to;
    while cursor != from
      invariant cursor in distances && |nodeList| > 0 && nodeList[0] == cursor
      invariant WalkFromTo(s.g, s.direction, cursor, to, nodeList, usedEdges)
      invariant distances[cursor] + Weight(usedEdges) == distances[to]
      decreases if cursor in s.visited then s.visited[cursor] else |s.visited|
    {
      assert s.Hangs(cursor);
      var edge := previous[cursor];
      var u := OtherEnd(edge, cursor);
      PrependStep(s.g, s.direction, u, edge, nodeList, usedEdges, to);
      usedEdges := [edge] + usedEdges;
      cursor := u;
      nodeList := [cursor] + nodeList;
    }
    path := Path(nodeList, usedEdges, distances[to]);
  }

  /** `[...values()]`: every value of a map, in the map's order. */
  method ListValues<V(==)>(m: map<Id, V>) returns (values: seq<V>)
    requires forall j, k :: j in m && k in m && j != k ==> m[j] != m[k]
    ensures Distinct(values)
    ensures forall k :: k in m ==> m[k] in values
    ensures forall x :: x in values ==> exists k :: k in m && m[k] == x
  {
    values := [];
    var rest := m.Keys;
    while rest != {}
      invariant rest <= m.Keys && Distinct(values)
      invariant forall k :: k in m && k !in rest ==> m[k] in values
      invariant forall x :: x in values ==> exists k :: k in m && k !in rest && m[k] == x
    {
      var n :| n in rest;
      assert m[n] !in values;
      rest := rest - {n};
      values := values + [m[n]];
    }
  }
}
