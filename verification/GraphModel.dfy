/** Graphs as values: nodes, edges, adjacency indexes and snapshots of `knowledge-graph.ts`. */
module GraphModel {
  import opened Prelude

  type Id = string

  datatype Node = Node(id: Id, kind: string, labelText: string, properties: map<string, string>, createdAt: int, updatedAt: int)
  datatype Edge = Edge(id: Id, kind: string, from: Id, to: Id, weight: real)
  datatype Direction = Outgoing | Incoming | Both
  datatype Snapshot = Snapshot(nodes: seq<Node>, edges: seq<Edge>)
  datatype Path = Path(nodes: seq<Id>, edges: seq<Edge>, totalWeight: real)

  /** A graph as its nodes and edges, without the indexes. */
  datatype Graph = Graph(nodes: map<Id, Node>, edges: map<Id, Edge>) {
    ghost predicate WellFormed() {
      && (forall n :: n in nodes ==> nodes[n].id == n)
      && (forall e :: e in edges ==> edges[e].id == e && edges[e].from in nodes && edges[e].to in nodes && edges[e].weight > 0.0)
    }
  }

  /** The edge ids at every node, in the order in which they were added. */
  type Index = map<Id, seq<Id>>

  /** `edge.from === id ? edge.to : edge.from` */
  function OtherEnd(e: Edge, id: Id): Id {
    if e.from == id then e.to else e.from
  }

  predicate Leaves(e: Edge, id: Id, direction: Direction) {
    match direction
    case Outgoing => e.from == id
    case Incoming => e.to == id
    case Both => e.from == id || e.to == id
  }

  /** A graph with its adjacency indexes. */
  datatype Listing = Listing(graph: Graph, outgoing: Index, incoming: Index) {
    /** The node's outgoing list names exactly the edges that start at it, each once. */
    ghost predicate OutAt(n: Id) {
      && n in outgoing && Distinct(outgoing[n])
      && forall e :: e in outgoing[n] <==> e in graph.edges && graph.edges[e].from == n
    }

    ghost predicate InAt(n: Id) {
      && n in incoming && Distinct(incoming[n])
      && forall e :: e in incoming[n] <==> e in graph.edges && graph.edges[e].to == n
    }

    ghost predicate IndexedAt(n: Id) {
      OutAt(n) && InAt(n)
    }

    /** The indexes list exactly the edges of the graph, at both of their ends. */
    ghost predicate Indexed() {
      && outgoing.Keys == graph.nodes.Keys == incoming.Keys
      && forall n {:trigger IndexedAt(n)} :: n in graph.nodes ==> IndexedAt(n)
    }

    ghost predicate Valid() {
      graph.WellFormed() && Indexed()
    }
  }

  /** `Set.add`: an id already there keeps its place. */
  function Added(ids: seq<Id>, id: Id): seq<Id> {
    if id in ids then ids else ids + [id]
  }

  function Remaining(ids: seq<Id>, gone: set<Id>): (r: seq<Id>)
    ensures forall x :: x in r <==> x in ids && x !in gone
  {
    Filter(ids, (x: Id) => x !in gone)
  }

  /** `Set.delete` */
  function Deleted(ids: seq<Id>, id: Id): seq<Id> {
    Remaining(ids, {id})
  }

  lemma RemainingTwice(ids: seq<Id>, a: set<Id>, b: set<Id>)
    ensures Remaining(Remaining(ids, a), b) == Remaining(ids, a + b)
  {
    var both := a + b;
    FilterFilter(ids, (x: Id) => x !in a, (x: Id) => x !in b, (x: Id) => x !in both);
  }

  lemma RemainingAll(ids: seq<Id>, gone: set<Id>)
    requires forall x :: x in ids ==> x !in gone
    ensures Remaining(ids, gone) == ids
  {
    FilterAll(ids, (x: Id) => x !in gone);
  }

  lemma RemainingDistinct(ids: seq<Id>, gone: set<Id>)
    requires Distinct(ids)
    ensures Distinct(Remaining(ids, gone))
  {
    FilterDistinct(ids, (x: Id) => x !in gone);
  }

  ghost predicate PrunedAt(before: Index, after: Index, gone: set<Id>, n: Id) {
    n in after && n in before && after[n] == Remaining(before[n], gone)
  }

  /** Every list that is left has lost these ids, and otherwise kept its order. */
  ghost predicate Pruned(before: Index, after: Index, gone: set<Id>) {
    forall n {:trigger PrunedAt(before, after, gone, n)} :: n in after ==> PrunedAt(before, after, gone, n)
  }

  /** Only these edges have gone: from the graph, and from the lists of its indexes. */
  ghost predicate Loses(before: Listing, after: Listing, gone: set<Id>) {
    && after.graph.edges == before.graph.edges - gone
    && Pruned(before.outgoing, after.outgoing, gone) && Pruned(before.incoming, after.incoming, gone)
  }

  lemma PrunedTwice(first: Index, second: Index, third: Index, a: set<Id>, b: set<Id>)
    requires Pruned(first, second, a) && Pruned(second, third, b)
    ensures Pruned(first, third, a + b)
  {
    forall n | n in third
      ensures PrunedAt(first, third, a + b, n)
    {
      assert PrunedAt(second, third, b, n) && PrunedAt(first, second, a, n);
      RemainingTwice(first[n], a, b);
    }
  }

  lemma NothingPruned(index: Index, gone: set<Id>)
    requires forall n, x :: n in index && x in index[n] ==> x !in gone
    ensures Pruned(index, index, gone)
  {
    forall n | n in index
      ensures PrunedAt(index, index, gone, n)
    {
      RemainingAll(index[n], gone);
    }
  }

  lemma DeletedPruned(index: Index, n: Id, id: Id)
    requires n in index && forall m :: m in index && m != n ==> id !in index[m]
    ensures Pruned(index, index[n := Deleted(index[n], id)], {id})
  {
    var index' := index[n := Deleted(index[n], id)];
    forall m | m in index
      ensures PrunedAt(index, index', {id}, m)
    {
      if m != n { RemainingAll(index[m], {id}); }
    }
  }

  function WithNode(l: Listing, node: Node): Listing {
    Listing(l.graph.(nodes := l.graph.nodes[node.id := node]), l.outgoing[node.id := []], l.incoming[node.id := []])
  }

  lemma NodeAdded(l: Listing, node: Node)
    requires l.Valid() && node.id !in l.graph.nodes
    ensures WithNode(l, node).Valid()
  {
    forall n | n in WithNode(l, node).graph.nodes
      ensures WithNode(l, node).IndexedAt(n)
    {
      assert n in l.graph.nodes ==> l.IndexedAt(n);
    }
  }

  lemma NodeReplaced(l: Listing, node: Node)
    requires l.Valid() && node.id in l.graph.nodes
    ensures l.(graph := l.graph.(nodes := l.graph.nodes[node.id := node])).Valid()
  {
    var t := l.(graph := l.graph.(nodes := l.graph.nodes[node.id := node]));
    forall n | n in t.graph.nodes
      ensures t.IndexedAt(n)
    {
      assert l.IndexedAt(n);
    }
  }

  function WithEdge(l: Listing, e: Edge): Listing
    requires e.from in l.outgoing && e.to in l.incoming
  {
    Listing(l.graph.(edges := l.graph.edges[e.id := e]),
            l.outgoing[e.from := Added(l.outgoing[e.from], e.id)], l.incoming[e.to := Added(l.incoming[e.to], e.id)])
  }

  lemma EdgeFits(g: Graph, e: Edge)
    requires g.WellFormed() && e.from in g.nodes && e.to in g.nodes && e.weight > 0.0
    ensures g.(edges := g.edges[e.id := e]).WellFormed()
  {
  }

  lemma EdgeAddedAt(l: Listing, e: Edge, n: Id)
    requires l.IndexedAt(n) && e.id !in l.graph.edges && e.from in l.outgoing && e.to in l.incoming
    ensures WithEdge(l, e).IndexedAt(n)
  {
  }

  lemma EdgeAdded(l: Listing, e: Edge)
    requires l.Valid() && e.id !in l.graph.edges && e.from in l.graph.nodes && e.to in l.graph.nodes && e.weight > 0.0
    ensures e.id !in l.outgoing[e.from] && e.id !in l.incoming[e.to]
    ensures WithEdge(l, e).Valid()
  {
    assert l.IndexedAt(e.from) && l.IndexedAt(e.to);
    EdgeFits(l.graph, e);
    forall n | n in l.graph.nodes
      ensures WithEdge(l, e).IndexedAt(n)
    {
      EdgeAddedAt(l, e, n);
    }
  }

  function WithoutEdge(l: Listing, e: Edge): Listing
    requires e.from in l.outgoing && e.to in l.incoming
  {
    Listing(l.graph.(edges := l.graph.edges - {e.id}),
            l.outgoing[e.from := Deleted(l.outgoing[e.from], e.id)], l.incoming[e.to := Deleted(l.incoming[e.to], e.id)])
  }

  lemma EdgeRemovedAt(l: Listing, e: Edge, n: Id)
    requires l.IndexedAt(n) && IsEdge(l.graph, e) && e.from in l.outgoing && e.to in l.incoming
    ensures WithoutEdge(l, e).IndexedAt(n)
    ensures n != e.from ==> e.id !in l.outgoing[n]
    ensures n != e.to ==> e.id !in l.incoming[n]
  {
    RemainingDistinct(l.outgoing[n], {e.id});
    RemainingDistinct(l.incoming[n], {e.id});
  }

  lemma EdgeRemoved(l: Listing, e: Edge)
    requires l.Valid() && IsEdge(l.graph, e)
    ensures e.from in l.outgoing && e.to in l.incoming
    ensures WithoutEdge(l, e).Valid() && Loses(l, WithoutEdge(l, e), {e.id})
  {
    forall n | n in l.graph.nodes
      ensures WithoutEdge(l, e).IndexedAt(n)
      ensures n != e.from ==> e.id !in l.outgoing[n]
      ensures n != e.to ==> e.id !in l.incoming[n]
    {
      EdgeRemovedAt(l, e, n);
    }
    DeletedPruned(l.outgoing, e.from, e.id);
    DeletedPruned(l.incoming, e.to, e.id);
  }

  function WithoutNode(l: Listing, id: Id): Listing {
    Listing(l.graph.(nodes := l.graph.nodes - {id}), l.outgoing - {id}, l.incoming - {id})
  }

  lemma NodeRemovedAt(l: Listing, id: Id, n: Id)
    requires l.IndexedAt(n) && n != id
    ensures WithoutNode(l, id).IndexedAt(n)
  {
  }

  lemma PrunedWithout(index: Index, id: Id)
    ensures Pruned(index, index - {id}, {})
  {
    forall n | n in index - {id}
      ensures PrunedAt(index, index - {id}, {}, n)
    {
      RemainingAll(index[n], {});
    }
  }

  lemma NodeRemoved(l: Listing, id: Id)
    requires l.Valid() && id in l.graph.nodes && Touching(l.graph, id) == {}
    ensures WithoutNode(l, id).Valid() && Loses(l, WithoutNode(l, id), {})
  {
    forall e | e in l.graph.edges
      ensures l.graph.edges[e].from != id && l.graph.edges[e].to != id
    {
      assert e !in Touching(l.graph, id);
    }
    forall n | n in l.graph.nodes && n != id
      ensures WithoutNode(l, id).IndexedAt(n)
    {
      NodeRemovedAt(l, id, n);
    }
    PrunedWithout(l.outgoing, id);
    PrunedWithout(l.incoming, id);
  }

  lemma NothingLost(l: Listing, gone: set<Id>)
    requires l.Indexed() && gone !! l.graph.edges.Keys
    ensures Loses(l, l, gone)
  {
    forall n | n in l.graph.nodes
      ensures forall x :: x in l.outgoing[n] || x in l.incoming[n] ==> x !in gone
    {
      assert l.IndexedAt(n);
    }
    NothingPruned(l.outgoing, gone);
    NothingPruned(l.incoming, gone);
  }

  lemma LosesTwice(first: Listing, second: Listing, third: Listing, a: set<Id>, b: set<Id>)
    requires Loses(first, second, a) && Loses(second, third, b)
    ensures Loses(first, third, a + b)
  {
    PrunedTwice(first.outgoing, second.outgoing, third.outgoing, a, b);
    PrunedTwice(first.incoming, second.incoming, third.incoming, a, b);
  }

  /** The edges with an end at a node. */
  function Touching(g: Graph, n: Id): set<Id> {
    set e | e in g.edges && (g.edges[e].from == n || g.edges[e].to == n)
  }

  lemma TouchingListed(l: Listing, n: Id)
    requires l.Indexed() && n in l.graph.nodes
    ensures Elements(l.outgoing[n] + l.incoming[n]) == Touching(l.graph, n)
  {
    assert l.IndexedAt(n);
  }

  lemma NothingTouches(g: Graph, n: Id)
    requires g.WellFormed() && n !in g.nodes
    ensures Touching(g, n) == {}
  {
  }

  predicate IsEdge(g: Graph, e: Edge) {
    e.id in g.edges && g.edges[e.id] == e
  }

  ghost predicate IsSnapshotOf(s: Snapshot, g: Graph) {
    && Distinct(s.nodes) && Distinct(s.edges)
    && (forall x :: x in s.nodes <==> x.id in g.nodes && g.nodes[x.id] == x)
    && (forall x :: x in s.edges <==> IsEdge(g, x))
  }

  function NodesOf(nodes: seq<Node>): map<Id, Node> {
    if nodes == [] then map[] else NodesOf(nodes[..|nodes| - 1])[nodes[|nodes| - 1].id := nodes[|nodes| - 1]]
  }

  predicate Kept(nodes: map<Id, Node>, e: Edge) {
    e.from in nodes && e.to in nodes
  }

  function EdgesOf(nodes: map<Id, Node>, edges: seq<Edge>): map<Id, Edge> {
    if edges == [] then map[]
    else
      var e := edges[|edges| - 1];
      var before := EdgesOf(nodes, edges[..|edges| - 1]);
      if Kept(nodes, e) then before[e.id := e] else before
  }

  function Restored(s: Snapshot): Graph {
    Graph(NodesOf(s.nodes), EdgesOf(NodesOf(s.nodes), s.edges))
  }

  /** The index `restore` builds: each kept edge adds its id at its end. */
  function RestoredOut(nodes: map<Id, Node>, edges: seq<Edge>): (index: Index)
    ensures index.Keys == nodes.Keys
  {
    if edges == [] then map n | n in nodes :: []
    else
      var e := edges[|edges| - 1];
      var before := RestoredOut(nodes, edges[..|edges| - 1]);
      if Kept(nodes, e) then before[e.from := Added(before[e.from], e.id)] else before
  }

  function RestoredIn(nodes: map<Id, Node>, edges: seq<Edge>): (index: Index)
    ensures index.Keys == nodes.Keys
  {
    if edges == [] then map n | n in nodes :: []
    else
      var e := edges[|edges| - 1];
      var before := RestoredIn(nodes, edges[..|edges| - 1]);
      if Kept(nodes, e) then before[e.to := Added(before[e.to], e.id)] else before
  }

  /** `restore` links every kept edge at its ends. */
  lemma RestoredLists(nodes: map<Id, Node>, edges: seq<Edge>, n: Id, id: Id)
    requires n in nodes
    ensures id in RestoredOut(nodes, edges)[n] <==> exists x :: x in edges && Kept(nodes, x) && x.id == id && x.from == n
    ensures id in RestoredIn(nodes, edges)[n] <==> exists x :: x in edges && Kept(nodes, x) && x.id == id && x.to == n
  {
    if edges == [] {
    } else {
      var last := edges[|edges| - 1];
      RestoredLists(nodes, edges[..|edges| - 1], n, id);
      assert forall x :: x in edges <==> x in edges[..|edges| - 1] || x == last;
    }
  }

  lemma {:induction false} RestoredDistinct(nodes: map<Id, Node>, edges: seq<Edge>, n: Id)
    requires n in nodes
    ensures Distinct(RestoredOut(nodes, edges)[n]) && Distinct(RestoredIn(nodes, edges)[n])
  {
    if edges == [] {
    } else {
      RestoredDistinct(nodes, edges[..|edges| - 1], n);
    }
  }

  lemma RestoredEdge(nodes: map<Id, Node>, edges: seq<Edge>, id: Id)
    ensures id in EdgesOf(nodes, edges) <==> exists x :: x in edges && Kept(nodes, x) && x.id == id
    ensures id in EdgesOf(nodes, edges) ==>
      var x := EdgesOf(nodes, edges)[id]; x in edges && Kept(nodes, x) && x.id == id
  {
    if edges == [] {
    } else {
      var last := edges[|edges| - 1];
      RestoredEdge(nodes, edges[..|edges| - 1], id);
      assert forall x :: x in edges <==> x in edges[..|edges| - 1] || x == last;
    }
  }

  /** No two kept edges share an id but join different nodes. */
  ghost predicate EndsAgree(nodes: map<Id, Node>, edges: seq<Edge>) {
    forall x, y :: x in edges && y in edges && Kept(nodes, x) && Kept(nodes, y) && x.id == y.id ==> x.from == y.from && x.to == y.to
  }

  /** What `restore` leaves in the four maps. */
  function RestoredListing(s: Snapshot): Listing {
    Listing(Restored(s), RestoredOut(NodesOf(s.nodes), s.edges), RestoredIn(NodesOf(s.nodes), s.edges))
  }

  lemma {:induction false} RestoredAt(s: Snapshot, n: Id)
    requires EndsAgree(NodesOf(s.nodes), s.edges) && n in NodesOf(s.nodes)
    ensures RestoredListing(s).IndexedAt(n)
  {
    var nodes, g := NodesOf(s.nodes), Restored(s);
    RestoredDistinct(nodes, s.edges, n);
    forall id
      ensures id in RestoredOut(nodes, s.edges)[n] <==> id in g.edges && g.edges[id].from == n
      ensures id in RestoredIn(nodes, s.edges)[n] <==> id in g.edges && g.edges[id].to == n
    {
      RestoredLists(nodes, s.edges, n, id);
      RestoredEdge(nodes, s.edges, id);
    }
  }

  lemma {:induction false} IndexedEndsAgree(s: Snapshot, x: Edge, y: Edge)
    requires x in s.edges && y in s.edges && Kept(NodesOf(s.nodes), x) && Kept(NodesOf(s.nodes), y) && x.id == y.id
    requires RestoredListing(s).Indexed()
    ensures x.from == y.from && x.to == y.to
  {
    var nodes, l := NodesOf(s.nodes), RestoredListing(s);
    RestoredLists(nodes, s.edges, x.from, x.id);
    RestoredLists(nodes, s.edges, y.from, y.id);
    RestoredLists(nodes, s.edges, x.to, x.id);
    RestoredLists(nodes, s.edges, y.to, y.id);
    assert l.IndexedAt(x.from) && l.IndexedAt(y.from) && l.IndexedAt(x.to) && l.IndexedAt(y.to);
  }

  /** `restore` leaves indexes that agree with the edges exactly when repeated edge ids agree on their ends. */
  lemma {:induction false} RestoredIndexedIff(s: Snapshot)
    ensures RestoredListing(s).Indexed() <==> EndsAgree(NodesOf(s.nodes), s.edges)
  {
    var nodes := NodesOf(s.nodes);
    if EndsAgree(nodes, s.edges) {
      forall n | n in nodes
        ensures RestoredListing(s).IndexedAt(n)
      {
        RestoredAt(s, n);
      }
    }
    if RestoredListing(s).Indexed() {
      forall x, y | x in s.edges && y in s.edges && Kept(nodes, x) && Kept(nodes, y) && x.id == y.id
        ensures x.from == y.from && x.to == y.to
      {
        IndexedEndsAgree(s, x, y);
      }
    }
  }

  /** A snapshot that gives the id "e" to an edge from a to b and then to one from b to a: the index keeps both ends. */
  lemma {:induction false} RepeatedEdgeMisindexed()
    ensures var a, b := Node("a", "kind", "A", map[], 0, 0), Node("b", "kind", "B", map[], 0, 0);
      var s := Snapshot([a, b], [Edge("e", "kind", "a", "b", 1.0), Edge("e", "kind", "b", "a", 1.0)]);
      var g := Restored(s);
      && g.edges.Keys == {"e"} && g.edges["e"].from == "b" && "a" in g.nodes
      && "e" in RestoredOut(g.nodes, s.edges)["a"] && !RestoredListing(s).Indexed()
  {
    var a, b := Node("a", "kind", "A", map[], 0, 0), Node("b", "kind", "B", map[], 0, 0);
    var first, second := Edge("e", "kind", "a", "b", 1.0), Edge("e", "kind", "b", "a", 1.0);
    assert [a, b][..1] == [a] && [a][..0] == [] && [first, second][..1] == [first] && [first][..0] == [];
    assert NodesOf([a]) == map["a" := a];
    var nodes := NodesOf([a, b]);
    assert "a"[0] != "b"[0] && nodes == map["a" := a, "b" := b];
    assert EdgesOf(nodes, [first]) == map["e" := first];
    assert EdgesOf(nodes, [first, second]) == map["e" := second];
    RestoredLists(nodes, [first, second], "a", "e");
    assert first in [first, second];
    assert !RestoredListing(Snapshot([a, b], [first, second])).IndexedAt("a");
  }

  lemma NodesOfLookup(nodes: seq<Node>, id: Id)
    ensures id in NodesOf(nodes) <==> exists x :: x in nodes && x.id == id
    ensures id in NodesOf(nodes) ==> NodesOf(nodes)[id] in nodes && NodesOf(nodes)[id].id == id
  {
    if nodes == [] {
    } else {
      var last := nodes[|nodes| - 1];
      NodesOfLookup(nodes[..|nodes| - 1], id);
      assert forall x :: x in nodes <==> x in nodes[..|nodes| - 1] || x == last;
    }
  }

  lemma NodesRestored(g: Graph, s: Snapshot)
    requires g.WellFormed() && IsSnapshotOf(s, g)
    ensures NodesOf(s.nodes) == g.nodes
  {
    forall id
      ensures id in NodesOf(s.nodes) <==> id in g.nodes
      ensures id in g.nodes ==> NodesOf(s.nodes)[id] == g.nodes[id]
    {
      NodesOfLookup(s.nodes, id);
      if id in g.nodes { assert g.nodes[id] in s.nodes; }
    }
  }

  lemma EdgesRestored(g: Graph, s: Snapshot)
    requires g.WellFormed() && IsSnapshotOf(s, g)
    ensures EdgesOf(g.nodes, s.edges) == g.edges
  {
    forall id
      ensures id in EdgesOf(g.nodes, s.edges) <==> id in g.edges
      ensures id in g.edges ==> EdgesOf(g.nodes, s.edges)[id] == g.edges[id]
    {
      RestoredEdge(g.nodes, s.edges, id);
      if id in g.edges { assert IsEdge(g, g.edges[id]); }
    }
  }

  /** `restore(snapshot())` reproduces the graph and its indexes. */
  lemma {:induction false} SnapshotRoundTrip(g: Graph, s: Snapshot)
    requires g.WellFormed() && IsSnapshotOf(s, g)
    ensures Restored(s) == g
    ensures RestoredListing(s).Valid()
  {
    NodesRestored(g, s);
    EdgesRestored(g, s);
    RestoredIndexedIff(s);
  }
}
