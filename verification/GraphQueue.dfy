/**
 The order in which a breadth-first traversal lists nodes: that of a queue.

 A node is listed before another if a node earlier in the line reaches it, or
 the same node reaches it by an edge that was added earlier.
 */
module GraphQueue {
  import opened Prelude
  import opened GraphModel
  import opened GraphHops
  import opened GraphWalks

  type Adjacency = map<Id, seq<Edge>>

  predicate Joins(e: Edge, edgeType: Option<string>, a: Id, b: Id) {
    OfType(e, edgeType) && OtherEnd(e, a) == b
  }

  /** The edge at `p` joins `a` to `b`, and no edge up to there joins `a` to `c`. */
  ghost predicate JoinsBefore(edges: seq<Edge>, edgeType: Option<string>, a: Id, b: Id, c: Id, p: nat)
    requires p < |edges|
  {
    Joins(edges[p], edgeType, a, b) && forall j :: 0 <= j <= p ==> !Joins(edges[j], edgeType, a, c)
  }

  ghost predicate JoinedFirst(edges: seq<Edge>, edgeType: Option<string>, a: Id, b: Id, c: Id) {
    exists p: nat :: p < |edges| && JoinsBefore(edges, edgeType, a, b, c, p)
  }

  /** The nodes are listed in the order of the first edges that join them to `a`. */
  ghost predicate InJoinOrder(edges: seq<Edge>, edgeType: Option<string>, a: Id, ids: seq<Id>) {
    forall i, j :: 0 <= i < j < |ids| ==> JoinedFirst(edges, edgeType, a, ids[i], ids[j])
  }

  /** One more node whose first edge comes after an edge of each node before it. */
  lemma JoinOrderGrows(edges: seq<Edge>, edgeType: Option<string>, a: Id, ids: seq<Id>, v: Id, n: nat)
    requires n <= |edges| && InJoinOrder(edges, edgeType, a, ids)
    requires forall x :: x in ids ==> exists p :: 0 <= p < n && Joins(edges[p], edgeType, a, x)
    requires forall p :: 0 <= p < n ==> !Joins(edges[p], edgeType, a, v)
    ensures InJoinOrder(edges, edgeType, a, ids + [v])
  {
    forall x | x in ids
      ensures JoinedFirst(edges, edgeType, a, x, v)
    {
      var p: nat :| p < n && Joins(edges[p], edgeType, a, x);
      assert JoinsBefore(edges, edgeType, a, x, v, p);
    }
  }

  /** `line[k]` reaches `line[i]`, nothing before it reaches `line[j]`, and if it does so itself, then by a later edge. */
  ghost predicate ReachesFirst(q: Search, edgesOf: Adjacency, line: seq<Id>, k: nat, i: nat, j: nat)
    requires k < i < j < |line|
  {
    && q.Adjacent(line[k], line[i])
    && (forall m :: 0 <= m < k ==> !q.Adjacent(line[m], line[j]))
    && (q.Adjacent(line[k], line[j]) ==> line[k] in edgesOf && JoinedFirst(edgesOf[line[k]], q.edgeType, line[k], line[i], line[j]))
  }

  ghost predicate ReachedFirst(q: Search, edgesOf: Adjacency, line: seq<Id>, i: nat, j: nat)
    requires i < j < |line|
  {
    exists k: nat :: k < i && ReachesFirst(q, edgesOf, line, k, i, j)
  }

  /** The line starts with the start, and of any two nodes behind it the one in front is reached first. */
  ghost predicate InQueueOrder(q: Search, edgesOf: Adjacency, line: seq<Id>) {
    && line != [] && line[0] == q.start
    && forall i: nat, j: nat {:trigger ReachedFirst(q, edgesOf, line, i, j)} :: 0 < i < j < |line| ==> ReachedFirst(q, edgesOf, line, i, j)
  }

  /** `line[i]` was reached by a node before `line[m]`, or is one of those that `line[m]` has reached so far. */
  ghost predicate FoundBy(q: Search, line: seq<Id>, m: nat, reached: seq<Id>, i: nat)
    requires i < |line|
  {
    exists k: nat :: k < i && FoundAt(q, line, m, reached, i, k)
  }

  ghost predicate FoundAt(q: Search, line: seq<Id>, m: nat, reached: seq<Id>, i: nat, k: nat)
    requires k < i < |line|
  {
    (k < m && q.Adjacent(line[k], line[i])) || (k == m && line[i] in reached)
  }

  /** The nodes before `line[m]` have been expanded, and `line[m]` as far as `reached`. */
  ghost predicate Expanding(q: Search, edgesOf: Adjacency, line: seq<Id>, m: nat, reached: seq<Id>) {
    && InQueueOrder(q, edgesOf, line)
    && (forall k: nat, v {:trigger q.Adjacent(line[k], v)} :: k < m && k < |line| && q.Adjacent(line[k], v) ==> v in line)
    && forall i: nat {:trigger FoundBy(q, line, m, reached, i)} :: 0 < i < |line| ==> FoundBy(q, line, m, reached, i)
  }

  /** What `line[m]` reaches, in the order of its edges. */
  ghost predicate Reaches(q: Search, edgesOf: Adjacency, a: Id, ids: seq<Id>) {
    && a in edgesOf && InJoinOrder(edgesOf[a], q.edgeType, a, ids)
    && forall v :: v in ids <==> q.Adjacent(a, v)
  }

  lemma NewReachedLast(q: Search, edgesOf: Adjacency, line: seq<Id>, m: nat, ids: seq<Id>, n: nat, i: nat)
    requires m < |line| && n < |ids| && ids[n] !in line && Reaches(q, edgesOf, line[m], ids)
    requires Expanding(q, edgesOf, line, m, ids[..n]) && 0 < i < |line|
    ensures ReachedFirst(q, edgesOf, line + [ids[n]], i, |line|)
  {
    assert FoundBy(q, line, m, ids[..n], i);
    var k: nat :| k < i && FoundAt(q, line, m, ids[..n], i, k);
    var longer := line + [ids[n]];
    if k == m {
      var p :| 0 <= p < n && ids[p] == line[i];
      assert JoinedFirst(edgesOf[line[m]], q.edgeType, line[m], ids[p], ids[n]);
      assert line[i] in ids;
    }
    forall j | 0 <= j < k
      ensures !q.Adjacent(longer[j], ids[n])
    {
      assert longer[j] == line[j];
    }
    assert longer[k] == line[k] && longer[i] == line[i];
    assert ReachesFirst(q, edgesOf, longer, k, i, |line|);
  }

  lemma OldReachedFirst(q: Search, edgesOf: Adjacency, line: seq<Id>, v: Id, i: nat, j: nat)
    requires i < j < |line| && ReachedFirst(q, edgesOf, line, i, j)
    ensures ReachedFirst(q, edgesOf, line + [v], i, j)
  {
    var k: nat :| k < i && ReachesFirst(q, edgesOf, line, k, i, j);
    var longer := line + [v];
    assert forall m :: 0 <= m < |line| ==> longer[m] == line[m];
    assert ReachesFirst(q, edgesOf, longer, k, i, j);
  }

  lemma FoundGrows(q: Search, line: seq<Id>, m: nat, ids: seq<Id>, n: nat, v: Id, i: nat)
    requires m < |line| && n < |ids| && v == ids[n]
    requires 0 < i < |line| ==> FoundBy(q, line, m, ids[..n], i)
    requires 0 < i <= |line|
    ensures FoundBy(q, line + [v], m, ids[..n + 1], i)
  {
    var longer := line + [v];
    if i == |line| {
      assert ids[..n + 1][n] == v;
      assert FoundAt(q, longer, m, ids[..n + 1], i, m);
    } else {
      var k: nat :| k < i && FoundAt(q, line, m, ids[..n], i, k);
      assert ids[..n + 1] == ids[..n] + [v];
      assert FoundAt(q, longer, m, ids[..n + 1], i, k);
    }
  }

  /** A node not yet in the line goes to its end. */
  lemma ReachNew(q: Search, edgesOf: Adjacency, line: seq<Id>, m: nat, ids: seq<Id>, n: nat)
    requires m < |line| && n < |ids| && ids[n] !in line && Reaches(q, edgesOf, line[m], ids)
    requires Expanding(q, edgesOf, line, m, ids[..n])
    ensures Expanding(q, edgesOf, line + [ids[n]], m, ids[..n + 1])
  {
    var longer := line + [ids[n]];
    forall i: nat, j: nat | 0 < i < j < |longer|
      ensures ReachedFirst(q, edgesOf, longer, i, j)
    {
      if j == |line| { NewReachedLast(q, edgesOf, line, m, ids, n, i); } else { OldReachedFirst(q, edgesOf, line, ids[n], i, j); }
    }
    forall i: nat {:trigger FoundBy(q, longer, m, ids[..n + 1], i)} | 0 < i < |longer|
      ensures FoundBy(q, longer, m, ids[..n + 1], i)
    {
      FoundGrows(q, line, m, ids, n, ids[n], i);
    }
    forall k: nat, v | k < m && k < |longer| && q.Adjacent(longer[k], v)
      ensures v in longer
    {
      assert longer[k] == line[k];
    }
  }

  /** A node already in the line stays where it is. */
  lemma ReachOld(q: Search, edgesOf: Adjacency, line: seq<Id>, m: nat, ids: seq<Id>, n: nat)
    requires n < |ids| && Expanding(q, edgesOf, line, m, ids[..n])
    ensures Expanding(q, edgesOf, line, m, ids[..n + 1])
  {
    forall i: nat {:trigger FoundBy(q, line, m, ids[..n + 1], i)} | 0 < i < |line|
      ensures FoundBy(q, line, m, ids[..n + 1], i)
    {
      assert FoundBy(q, line, m, ids[..n], i);
      var k: nat :| k < i && FoundAt(q, line, m, ids[..n], i, k);
      assert ids[..n + 1] == ids[..n] + [ids[n]];
      assert FoundAt(q, line, m, ids[..n + 1], i, k);
    }
  }

  /** All neighbours of `line[m]` are in the line: the next node's turn. */
  lemma Expanded(q: Search, edgesOf: Adjacency, line: seq<Id>, m: nat, ids: seq<Id>)
    requires m < |line| && Reaches(q, edgesOf, line[m], ids) && Expanding(q, edgesOf, line, m, ids)
    requires forall v :: v in ids ==> v in line
    ensures Expanding(q, edgesOf, line, m + 1, [])
  {
    forall i: nat {:trigger FoundBy(q, line, m + 1, [], i)} | 0 < i < |line|
      ensures FoundBy(q, line, m + 1, [], i)
    {
      assert FoundBy(q, line, m, ids, i);
      var k: nat :| k < i && FoundAt(q, line, m, ids, i, k);
      assert FoundAt(q, line, m + 1, [], i, k);
    }
  }

  lemma QueueStarts(q: Search, edgesOf: Adjacency)
    ensures Expanding(q, edgesOf, [q.start], 0, [])
  {
  }

  // Queue order leaves no choice.

  lemma JoinedFirstOneWay(edges: seq<Edge>, edgeType: Option<string>, a: Id, b: Id, c: Id)
    requires b != c && JoinedFirst(edges, edgeType, a, b, c)
    ensures !JoinedFirst(edges, edgeType, a, c, b)
  {
  }

  /** Two lines in queue order that agree on a beginning agree on the next node. */
  lemma {:induction false} NextInQueue(q: Search, edgesOf: Adjacency, line: seq<Id>, other: seq<Id>, n: nat)
    requires InQueueOrder(q, edgesOf, line) && InQueueOrder(q, edgesOf, other)
    requires Distinct(line) && Distinct(other) && Elements(line) == Elements(other)
    requires 0 < n < |line| && n < |other| && line[..n] == other[..n]
    ensures line[n] == other[n]
  {
    var x, y := line[n], other[n];
    if x != y {
      var j := Later(line, other, n, y);
      var i := Later(other, line, n, x);
      assert ReachedFirst(q, edgesOf, line, n, j) && ReachedFirst(q, edgesOf, other, n, i);
      var k: nat :| k < n && ReachesFirst(q, edgesOf, line, k, n, j);
      var m: nat :| m < n && ReachesFirst(q, edgesOf, other, m, n, i);
      assert line[..n][k] == other[..n][k] && line[..n][m] == other[..n][m];
      assert k == m;
      JoinedFirstOneWay(edgesOf[line[k]], q.edgeType, line[k], x, y);
    }
  }

  /** Where a node that the other line has at `n` stands in this one. */
  lemma Later(line: seq<Id>, other: seq<Id>, n: nat, y: Id) returns (j: nat)
    requires Distinct(other) && Elements(line) == Elements(other)
    requires n < |line| && n < |other| && line[..n] == other[..n] && other[n] == y && line[n] != y
    ensures n < j < |line| && line[j] == y
  {
    assert forall i :: 0 <= i < n ==> line[..n][i] == other[..n][i];
    assert y in Elements(other);
    j :| 0 <= j < |line| && line[j] == y;
  }

  lemma {:induction false} AgreeUpTo(q: Search, edgesOf: Adjacency, line: seq<Id>, other: seq<Id>, n: nat)
    requires InQueueOrder(q, edgesOf, line) && InQueueOrder(q, edgesOf, other)
    requires Distinct(line) && Distinct(other) && Elements(line) == Elements(other)
    requires n <= |line| && n <= |other|
    ensures line[..n] == other[..n]
  {
    if n == 0 {
    } else {
      AgreeUpTo(q, edgesOf, line, other, n - 1);
      if n > 1 { NextInQueue(q, edgesOf, line, other, n - 1); }
      assert line[..n] == line[..n - 1] + [line[n - 1]] && other[..n] == other[..n - 1] + [other[n - 1]];
    }
  }

  /** Given nodes can be lined up in queue order in one way only. */
  lemma {:induction false} QueueOrderUnique(q: Search, edgesOf: Adjacency, line: seq<Id>, other: seq<Id>)
    requires InQueueOrder(q, edgesOf, line) && InQueueOrder(q, edgesOf, other)
    requires Distinct(line) && Distinct(other) && Elements(line) == Elements(other)
    ensures line == other
  {
    DistinctSize(line);
    DistinctSize(other);
    AgreeUpTo(q, edgesOf, line, other, |line|);
    assert line[..|line|] == line && other[..|line|] == other;
  }

  // The loop of `neighbors`.

  ghost predicate IsNodes(g: Graph, nodes: seq<Node>) {
    forall x :: x in nodes ==> x.id in g.nodes && g.nodes[x.id] == x
  }

  ghost predicate JoinedBySome(edges: seq<Edge>, n: nat, edgeType: Option<string>, a: Id, b: Id)
    requires n <= |edges|
  {
    exists p :: 0 <= p < n && Joins(edges[p], edgeType, a, b)
  }

  ghost predicate Met(q: Search, e: Edge, nodes: seq<Node>) {
    OfType(e, q.edgeType) ==> OtherEnd(e, q.start) in q.g.nodes && q.g.nodes[OtherEnd(e, q.start)] in nodes
  }

  /** The nodes that the first `n` edges join to the start, each once. */
  ghost predicate Collected(q: Search, edges: seq<Edge>, n: nat, nodes: seq<Node>) {
    && n <= |edges| && Distinct(nodes) && IsNodes(q.g, nodes)
    && (forall x :: x in nodes ==> JoinedBySome(edges, n, q.edgeType, q.start, x.id))
    && (forall p :: 0 <= p < n ==> Met(q, edges[p], nodes))
  }

  lemma {:induction false} CollectSkips(q: Search, adjacent: seq<Edge>, i: nat, nodes: seq<Node>)
    requires i < |adjacent| && Collected(q, adjacent, i, nodes) && Met(q, adjacent[i], nodes)
    ensures Collected(q, adjacent, i + 1, nodes)
  {
    forall x | x in nodes
      ensures JoinedBySome(adjacent, i + 1, q.edgeType, q.start, x.id)
    {
      assert JoinedBySome(adjacent, i, q.edgeType, q.start, x.id);
    }
  }

  lemma {:induction false} CollectAdds(q: Search, adjacent: seq<Edge>, i: nat, nodes: seq<Node>, node: Node)
    requires i < |adjacent| && Collected(q, adjacent, i, nodes) && Joins(adjacent[i], q.edgeType, q.start, node.id)
    requires node.id in q.g.nodes && q.g.nodes[node.id] == node && node !in nodes
    ensures Collected(q, adjacent, i + 1, nodes + [node])
  {
    forall x | x in nodes + [node]
      ensures JoinedBySome(adjacent, i + 1, q.edgeType, q.start, x.id)
    {
      assert x in nodes ==> JoinedBySome(adjacent, i, q.edgeType, q.start, x.id);
    }
    forall p | 0 <= p < i
      ensures Met(q, adjacent[p], nodes + [node])
    {
      assert Met(q, adjacent[p], nodes);
    }
    assert Met(q, adjacent[i], nodes + [node]);
  }

  /** The next edge joins a node already listed, or one whose first edge it is. */
  lemma {:induction false} CollectNext(q: Search, adjacent: seq<Edge>, i: nat, nodes: seq<Node>)
    requires q.g.WellFormed() && i < |adjacent| && Leaves(adjacent[i], q.start, q.direction) && IsEdge(q.g, adjacent[i])
    requires Collected(q, adjacent, i, nodes) && InJoinOrder(adjacent, q.edgeType, q.start, IdsOf(nodes))
    ensures OtherEnd(adjacent[i], q.start) in q.g.nodes
    ensures var node := q.g.nodes[OtherEnd(adjacent[i], q.start)];
      var nodes' := if OfType(adjacent[i], q.edgeType) && node !in nodes then nodes + [node] else nodes;
      Collected(q, adjacent, i + 1, nodes') && InJoinOrder(adjacent, q.edgeType, q.start, IdsOf(nodes'))
  {
    var node := q.g.nodes[OtherEnd(adjacent[i], q.start)];
    if OfType(adjacent[i], q.edgeType) && node !in nodes {
      CollectAdds(q, adjacent, i, nodes, node);
      CollectedFirst(q, adjacent, i, nodes, node);
    } else {
      CollectSkips(q, adjacent, i, nodes);
    }
  }

  lemma {:induction false} CollectedFirst(q: Search, adjacent: seq<Edge>, i: nat, nodes: seq<Node>, node: Node)
    requires i < |adjacent| && Collected(q, adjacent, i, nodes) && InJoinOrder(adjacent, q.edgeType, q.start, IdsOf(nodes))
    requires node.id in q.g.nodes && q.g.nodes[node.id] == node && node !in nodes
    ensures InJoinOrder(adjacent, q.edgeType, q.start, IdsOf(nodes + [node]))
  {
    forall v | v in IdsOf(nodes)
      ensures JoinedBySome(adjacent, i, q.edgeType, q.start, v)
    {
      var k :| 0 <= k < |nodes| && IdsOf(nodes)[k] == v;
      assert nodes[k] in nodes;
    }
    forall p | 0 <= p < i
      ensures !Joins(adjacent[p], q.edgeType, q.start, node.id)
    {
      assert Met(q, adjacent[p], nodes);
    }
    JoinOrderGrows(adjacent, q.edgeType, q.start, IdsOf(nodes), node.id, i);
    IdsAppend(nodes, [node]);
    assert IdsOf([node]) == [node.id];
  }

  lemma {:induction false} AllCollected(q: Search, adjacent: seq<Edge>, nodes: seq<Node>)
    requires q.g.WellFormed() && Collected(q, adjacent, |adjacent|, nodes)
    requires forall e :: e in adjacent <==> IsEdge(q.g, e) && Leaves(e, q.start, q.direction)
    ensures Lists(q.g, {}, q.NeighborsOf({q.start}), nodes)
  {
    forall v | v in q.g.nodes
      ensures q.g.nodes[v] in nodes <==> q.Adjacent(q.start, v)
    {
      if q.g.nodes[v] in nodes {
        var p :| 0 <= p < |adjacent| && Joins(adjacent[p], q.edgeType, q.start, v);
        assert adjacent[p] in adjacent;
        assert Step(q.g, q.direction, q.start, adjacent[p], v);
      }
      if q.Adjacent(q.start, v) {
        var e :| Step(q.g, q.direction, q.start, e, v) && OfType(e, q.edgeType);
        var p :| 0 <= p < |adjacent| && adjacent[p] == e;
        assert Met(q, adjacent[p], nodes);
      }
    }
  }

  lemma IdsAppend(a: seq<Node>, b: seq<Node>)
    ensures IdsOf(a + b) == IdsOf(a) + IdsOf(b)
  {
  }

  // The rounds of `traverse`.

  /** The nodes seen are those of the line, which `found` continues, while `line[m]` has been expanded as far as `reached`. */
  ghost predicate Growing(q: Search, edgesOf: Adjacency, line: seq<Id>, m: nat, seen: set<Id>, found: seq<Node>, reached: seq<Id>) {
    && Elements(line) <= seen <= q.g.nodes.Keys
    && Lists(q.g, Elements(line), seen, found)
    && Expanding(q, edgesOf, line + IdsOf(found), m, reached)
  }

  lemma MoreElements(seen: set<Id>, ids: seq<Id>, j: nat)
    requires j < |ids|
    ensures seen + Elements(ids[..j + 1]) == seen + Elements(ids[..j]) + {ids[j]}
  {
  }

  /** The line so far consists of the nodes seen so far. */
  lemma LineIsSeen(g: Graph, line: seq<Id>, seen: set<Id>, found: seq<Node>)
    requires g.WellFormed() && Elements(line) <= seen <= g.nodes.Keys && Lists(g, Elements(line), seen, found)
    ensures Elements(line + IdsOf(found)) == seen
  {
    ListedIds(g, Elements(line), seen, found);
  }

  lemma ListsOneMore(g: Graph, before: set<Id>, seen: set<Id>, found: seq<Node>, node: Node)
    requires g.WellFormed() && before <= seen && Lists(g, before, seen, found)
    requires node.id in g.nodes && g.nodes[node.id] == node && node.id !in seen
    ensures Lists(g, before, seen + {node.id}, found + [node])
  {
  }

  lemma {:induction false} SeeNext(q: Search, edgesOf: Adjacency, line: seq<Id>, m: nat, neighbors: seq<Node>, j: nat, seen: set<Id>, found: seq<Node>)
    requires q.g.WellFormed() && m < |line| && j < |neighbors| && IsNodes(q.g, neighbors)
    requires Reaches(q, edgesOf, line[m], IdsOf(neighbors)) && Growing(q, edgesOf, line, m, seen, found, IdsOf(neighbors)[..j])
    ensures neighbors[j].id in seen ==> seen + {neighbors[j].id} == seen && Growing(q, edgesOf, line, m, seen, found, IdsOf(neighbors)[..j + 1])
    ensures neighbors[j].id !in seen ==>
      Growing(q, edgesOf, line, m, seen + {neighbors[j].id}, found + [neighbors[j]], IdsOf(neighbors)[..j + 1])
  {
    LineIsSeen(q.g, line, seen, found);
    var all, node := line + IdsOf(found), neighbors[j];
    assert node in neighbors && IdsOf(neighbors)[j] == node.id;
    assert node.id in all <==> node.id in Elements(all);
    if node.id in seen {
      ReachOld(q, edgesOf, all, m, IdsOf(neighbors), j);
    } else {
      ReachNew(q, edgesOf, all, m, IdsOf(neighbors), j);
      IdsAppend(found, [node]);
      assert line + IdsOf(found + [node]) == all + [node.id];
      ListsOneMore(q.g, Elements(line), seen, found, node);
    }
  }

  lemma {:induction false} SeenAll(q: Search, edgesOf: Adjacency, line: seq<Id>, m: nat, neighbors: seq<Node>, seen: set<Id>, found: seq<Node>)
    requires q.g.WellFormed() && m < |line| && Reaches(q, edgesOf, line[m], IdsOf(neighbors))
    requires Growing(q, edgesOf, line, m, seen, found, IdsOf(neighbors)) && Elements(IdsOf(neighbors)) <= seen
    ensures Growing(q, edgesOf, line, m + 1, seen, found, [])
  {
    LineIsSeen(q.g, line, seen, found);
    var all := line + IdsOf(found);
    forall v | v in IdsOf(neighbors)
      ensures v in all
    {
      assert v in Elements(IdsOf(neighbors)) && v in Elements(all);
    }
    Expanded(q, edgesOf, all, m, IdsOf(neighbors));
  }

  /** The frontier ends the line, the nodes before it have been expanded, and the line consists of the visited nodes. */
  ghost predicate Lined(q: Search, edgesOf: Adjacency, line: seq<Id>, frontier: seq<Id>, visited: set<Id>) {
    && visited == Elements(line) <= q.g.nodes.Keys
    && |frontier| <= |line| && line[|line| - |frontier|..] == frontier
    && Expanding(q, edgesOf, line, |line| - |frontier|, [])
  }

  /** A round of the traversal that has expanded the first `i` nodes of the frontier. */
  ghost predicate Widened(q: Search, edgesOf: Adjacency, line: seq<Id>, frontier: seq<Id>, i: nat, seen: set<Id>, found: seq<Node>) {
    && |frontier| <= |line| && i <= |frontier|
    && seen == Elements(line) + q.NeighborsOf(Elements(frontier[..i]))
    && Growing(q, edgesOf, line, |line| - |frontier| + i, seen, found, [])
  }

  lemma WidenStarts(q: Search, edgesOf: Adjacency, line: seq<Id>, frontier: seq<Id>, visited: set<Id>)
    requires Lined(q, edgesOf, line, frontier, visited)
    ensures Widened(q, edgesOf, line, frontier, 0, visited, [])
  {
    assert line + IdsOf([]) == line;
    assert Elements(frontier[..0]) == {};
    assert q.NeighborsOf({}) == {};
  }

  lemma InLine(q: Search, line: seq<Id>, frontier: seq<Id>, i: nat)
    requires |frontier| <= |line| && line[|line| - |frontier|..] == frontier && i < |frontier|
    ensures line[|line| - |frontier| + i] == frontier[i] && frontier[i] in Elements(line)
  {
    assert line[|line| - |frontier|..][i] == line[|line| - |frontier| + i];
  }

  lemma WidenNext(q: Search, edgesOf: Adjacency, line: seq<Id>, frontier: seq<Id>, i: nat, before: set<Id>, listed: seq<Node>,
                  seen: set<Id>, found: seq<Node>, ids: seq<Id>)
    requires i < |frontier| && Widened(q, edgesOf, line, frontier, i, before, listed)
    requires Elements(ids) == q.NeighborsOf({frontier[i]}) && seen == before + Elements(ids)
    requires Growing(q, edgesOf, line, |line| - |frontier| + i + 1, seen, found, [])
    ensures Widened(q, edgesOf, line, frontier, i + 1, seen, found)
  {
    assert Elements(frontier[..i + 1]) == Elements(frontier[..i]) + {frontier[i]};
    MoreNeighbors(q, Elements(frontier[..i]), frontier[i]);
  }

  lemma WidenEnds(q: Search, edgesOf: Adjacency, line: seq<Id>, frontier: seq<Id>, visited: set<Id>, seen: set<Id>, found: seq<Node>)
    requires visited == Elements(line) && Widened(q, edgesOf, line, frontier, |frontier|, seen, found)
    ensures seen == visited + q.NeighborsOf(Elements(frontier))
  {
    assert frontier[..|frontier|] == frontier;
  }

  lemma {:induction false} NeighborsReached(q: Search, p: Search, edgesOf: Adjacency, a: Id, neighbors: seq<Node>)
    requires q.g.WellFormed() && p == q.(start := a) && a in edgesOf && Lists(p.g, {}, p.NeighborsOf({a}), neighbors)
    requires InJoinOrder(edgesOf[a], q.edgeType, a, IdsOf(neighbors))
    ensures IsNodes(q.g, neighbors) && Elements(IdsOf(neighbors)) == q.NeighborsOf({a}) && Reaches(q, edgesOf, a, IdsOf(neighbors))
  {
    SameNeighbors(q, p, {a});
    ListedIds(q.g, {}, q.NeighborsOf({a}), neighbors);
    forall v
      ensures v in IdsOf(neighbors) <==> q.Adjacent(a, v)
    {
      assert v in IdsOf(neighbors) <==> v in Elements(IdsOf(neighbors));
    }
  }

  lemma Lengthened(line: seq<Id>, more: seq<Id>)
    ensures (line + more)[|line + more| - |more|..] == more
    ensures Elements(line + more) == Elements(line) + Elements(more)
  {
  }

  lemma {:induction false} NextLine(q: Search, edgesOf: Adjacency, line: seq<Id>, frontier: seq<Id>, visited: set<Id>, ordered: seq<Node>, found: seq<Node>)
    requires q.g.WellFormed() && visited == Elements(line) && line == [q.start] + IdsOf(ordered)
    requires Widened(q, edgesOf, line, frontier, |frontier|, visited + q.NeighborsOf(Elements(frontier)), found)
    ensures line + IdsOf(found) == [q.start] + IdsOf(ordered + found)
    ensures Lined(q, edgesOf, line + IdsOf(found), IdsOf(found), visited + Elements(IdsOf(found)))
  {
    LineIsSeen(q.g, line, visited + q.NeighborsOf(Elements(frontier)), found);
    NextLined(q, edgesOf, line, IdsOf(found), visited);
    IdsAppend(ordered, found);
    Regroup(q.start, IdsOf(ordered), IdsOf(found));
  }

  lemma NextLined(q: Search, edgesOf: Adjacency, line: seq<Id>, ids: seq<Id>, visited: set<Id>)
    requires visited == Elements(line) && Elements(line + ids) <= q.g.nodes.Keys && Expanding(q, edgesOf, line + ids, |line|, [])
    ensures Lined(q, edgesOf, line + ids, ids, visited + Elements(ids))
  {
    Lengthened(line, ids);
  }

  lemma Regroup(start: Id, a: seq<Id>, b: seq<Id>)
    ensures [start] + a + b == [start] + (a + b)
  {
  }

  lemma SameNeighbors(q: Search, p: Search, from: set<Id>)
    requires p == q.(start := p.start)
    ensures p.NeighborsOf(from) == q.NeighborsOf(from)
  {
    assert forall a, b :: p.Adjacent(a, b) <==> q.Adjacent(a, b);
  }
}
