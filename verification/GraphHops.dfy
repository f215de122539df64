/** Hop distances, for breadth-first traversal. */
module GraphHops {
  import opened Prelude
  import opened GraphModel
  import opened GraphWalks

  predicate OfType(e: Edge, edgeType: Option<string>) {
    edgeType.None? || e.kind == edgeType.value
  }

  /** A traversal from a node: the direction and the type of the edges it follows. */
  datatype Search = Search(g: Graph, direction: Direction, edgeType: Option<string>, start: Id) {

    ghost predicate Adjacent(a: Id, b: Id) {
      exists e :: Step(g, direction, a, e, b) && OfType(e, edgeType)
    }

    ghost function NeighborsOf(from: set<Id>): set<Id> {
      set b | b in g.nodes && exists a :: a in from && Adjacent(a, b)
    }

    /** The nodes within `k` hops of the start. */
    ghost function Ball(k: nat): set<Id> {
      if k == 0 then {start} else Grown(Ball(k - 1))
    }

    ghost function Grown(ball: set<Id>): set<Id> {
      ball + NeighborsOf(ball)
    }

    ghost function Balls(): nat -> set<Id> {
      (k: nat) => Ball(k)
    }

    ghost function Growth(): set<Id> -> set<Id> {
      (from: set<Id>) => Grown(from)
    }

    ghost predicate AtHops(v: Id, k: nat) {
      v in Ball(k) && (k > 0 ==> v !in Ball(k - 1))
    }

    ghost predicate IsTypedWalk(v: Id, nodes: seq<Id>, edges: seq<Edge>) {
      WalkFromTo(g, direction, start, v, nodes, edges) && forall e :: e in edges ==> OfType(e, edgeType)
    }

    /** What `traverse` promises: exactly the nodes at hop distance 1 to `maxDepth`, each once, nearer ones first. */
    ghost predicate IsTraversal(maxDepth: nat, listed: seq<Node>) {
      Lists(g, {start}, Ball(maxDepth), listed) && NearerFirst(Balls(), listed)
    }
  }

  /** With `ball(k)` the nodes within `k` hops: nearer nodes are listed first. */
  ghost predicate NearerFirst(ball: nat -> set<Id>, listed: seq<Node>) {
    forall i, j, k: nat :: 0 <= i < j < |listed| && listed[j].id in ball(k) ==> listed[i].id in ball(k)
  }

  ghost predicate Grows(ball: nat -> set<Id>) {
    forall j: nat, k: nat :: j <= k ==> ball(j) <= ball(k)
  }

  /** `found` lists, once each, the nodes of `visited` outside `before`. */
  ghost predicate Lists(g: Graph, before: set<Id>, visited: set<Id>, found: seq<Node>) {
    && Distinct(found)
    && (forall x :: x in found ==> x.id in g.nodes && g.nodes[x.id] == x)
    && (forall v :: v in g.nodes ==> (g.nodes[v] in found <==> v in visited && v !in before))
  }

  /** `Ball` is what walks of at most `k` edges reach. */
  lemma {:induction false} BallIsWalks(q: Search, k: nat, v: Id)
    requires q.g.WellFormed() && q.start in q.g.nodes
    ensures v in q.Ball(k) <==> exists nodes, edges :: q.IsTypedWalk(v, nodes, edges) && |edges| <= k
  {
    if v in q.Ball(k) {
      var nodes, edges := BallWalk(q, k, v);
    }
    forall nodes, edges | q.IsTypedWalk(v, nodes, edges) && |edges| <= k
      ensures v in q.Ball(k)
    {
      WalkInBall(q, k, v, nodes, edges);
    }
  }

  lemma TypedWalkExtends(q: Search, a: Id, nodes: seq<Id>, edges: seq<Edge>, e: Edge, b: Id)
    requires q.g.WellFormed() && q.IsTypedWalk(a, nodes, edges) && Step(q.g, q.direction, a, e, b) && OfType(e, q.edgeType)
    ensures q.IsTypedWalk(b, nodes + [b], edges + [e])
  {
    ExtendWalk(q.g, q.direction, q.start, a, nodes, edges, e, b);
  }

  lemma BallWalk(q: Search, k: nat, v: Id) returns (nodes: seq<Id>, edges: seq<Edge>)
    requires q.g.WellFormed() && q.start in q.g.nodes && v in q.Ball(k)
    ensures q.IsTypedWalk(v, nodes, edges) && |edges| <= k
  {
    if k == 0 {
      nodes, edges := [q.start], [];
    } else if v in q.Ball(k - 1) {
      nodes, edges := BallWalk(q, k - 1, v);
    } else {
      var a :| a in q.Ball(k - 1) && q.Adjacent(a, v);
      var e :| Step(q.g, q.direction, a, e, v) && OfType(e, q.edgeType);
      nodes, edges := BallWalk(q, k - 1, a);
      TypedWalkExtends(q, a, nodes, edges, e, v);
      nodes, edges := nodes + [v], edges + [e];
    }
  }

  lemma ExtendWalk(g: Graph, direction: Direction, from: Id, a: Id, nodes: seq<Id>, edges: seq<Edge>, e: Edge, b: Id)
    requires g.WellFormed() && WalkFromTo(g, direction, from, a, nodes, edges) && Step(g, direction, a, e, b)
    ensures WalkFromTo(g, direction, from, b, nodes + [b], edges + [e])
  {
  }

  lemma WalkInBall(q: Search, k: nat, v: Id, nodes: seq<Id>, edges: seq<Edge>)
    requires q.g.WellFormed() && q.IsTypedWalk(v, nodes, edges) && |edges| <= k
    ensures v in q.Ball(k)
    decreases k
  {
    if |edges| > 0 {
      var last := |edges| - 1;
      WalkInBall(q, k - 1, nodes[last], nodes[..|edges|], edges[..last]);
      assert Step(q.g, q.direction, nodes[last], edges[last], nodes[last + 1]);
      assert q.Adjacent(nodes[last], v);
    } else if k > 0 {
      WalkInBall(q, k - 1, v, nodes, edges);
    }
  }

  lemma BallGrows(q: Search, j: nat, k: nat)
    requires j <= k
    ensures q.Ball(j) <= q.Ball(k)
  {
    if j == k {
    } else {
      BallGrows(q, j, k - 1);
    }
  }

  ghost predicate GrowsBy(ball: nat -> set<Id>, grown: set<Id> -> set<Id>, k: nat) {
    ball(k + 1) == grown(ball(k))
  }

  lemma {:induction false} StaysOnce(ball: nat -> set<Id>, grown: set<Id> -> set<Id>, j: nat, k: nat)
    requires forall i: nat {:trigger GrowsBy(ball, grown, i)} :: GrowsBy(ball, grown, i)
    requires j <= k && ball(j + 1) == ball(j)
    ensures ball(k) == ball(j)
    decreases k
  {
    if j == k {
    } else {
      StaysOnce(ball, grown, j, k - 1);
      assert GrowsBy(ball, grown, j) && GrowsBy(ball, grown, k - 1);
    }
  }

  lemma BallsGrow(q: Search, i: nat)
    ensures GrowsBy(q.Balls(), q.Growth(), i)
  {
  }

  lemma {:induction false} BallStable(q: Search, j: nat, k: nat)
    requires j <= k && q.Balls()(j + 1) == q.Balls()(j)
    ensures q.Balls()(k) == q.Balls()(j)
  {
    forall i: nat
      ensures GrowsBy(q.Balls(), q.Growth(), i)
    {
      BallsGrow(q, i);
    }
    StaysOnce(q.Balls(), q.Growth(), j, k);
  }

  /** The neighbours of the outermost ring are all that the next ball adds. */
  lemma NextBall(q: Search, k: nat, ring: set<Id>)
    requires forall v :: v in ring <==> q.AtHops(v, k)
    ensures q.Ball(k + 1) == q.Ball(k) + q.NeighborsOf(ring)
  {
    forall a, b | a in q.Ball(k) && a !in ring && b in q.g.nodes && q.Adjacent(a, b)
      ensures b in q.Ball(k)
    {
      assert a in q.Ball(k - 1);
    }
  }

  lemma MoreNeighbors(q: Search, from: set<Id>, a: Id)
    ensures q.NeighborsOf(from + {a}) == q.NeighborsOf(from) + q.NeighborsOf({a})
  {
  }

  lemma OrderGrows(ball: nat -> set<Id>, k: nat, listed: seq<Node>, found: seq<Node>)
    requires Grows(ball) && NearerFirst(ball, listed)
    requires forall x :: x in listed ==> x.id in ball(k)
    requires forall x :: x in found ==> x.id in ball(k + 1) && x.id !in ball(k)
    ensures NearerFirst(ball, listed + found)
  {
    var all := listed + found;
    forall i, j, m: nat | 0 <= i < j < |all| && all[j].id in ball(m)
      ensures all[i].id in ball(m)
    {
      if j >= |listed| {
        assert all[j] in found && (all[i] in listed || all[i] in found);
        assert !(ball(m) <= ball(k));
        assert ball(k + 1) <= ball(m) && ball(k) <= ball(m);
      }
    }
  }

  lemma ListsGrow(g: Graph, a: set<Id>, b: set<Id>, c: set<Id>, listed: seq<Node>, found: seq<Node>)
    requires a <= b <= c && Lists(g, a, b, listed) && Lists(g, b, c, found)
    ensures Lists(g, a, c, listed + found)
  {
    var all := listed + found;
    forall i, j | 0 <= i < j < |all|
      ensures all[i] != all[j]
    {
      if i < |listed| && |listed| <= j {
        assert all[i] in listed && all[j] in found;
        assert all[i].id in b && all[j].id !in b;
      }
    }
  }

  lemma TraversalGrows(q: Search, k: nat, listed: seq<Node>, found: seq<Node>)
    requires q.IsTraversal(k, listed) && Lists(q.g, q.Ball(k), q.Ball(k + 1), found)
    ensures q.IsTraversal(k + 1, listed + found)
  {
    forall i: nat, j: nat | i <= j
      ensures q.Ball(i) <= q.Ball(j)
    {
      BallGrows(q, i, j);
    }
    ListsGrow(q.g, q.Ball(0), q.Ball(k), q.Ball(k + 1), listed, found);
    OrderGrows(q.Balls(), k, listed, found);
  }

  /** An empty ring means that nothing further can be reached. */
  lemma TraversalDone(q: Search, k: nat, maxDepth: nat, listed: seq<Node>)
    requires k <= maxDepth && q.IsTraversal(k, listed)
    requires forall v :: !q.AtHops(v, k)
    ensures q.IsTraversal(maxDepth, listed)
  {
    EmptyRing(q, k);
    BallStable(q, k, maxDepth);
  }

  lemma EmptyRing(q: Search, k: nat)
    requires forall v :: !q.AtHops(v, k)
    ensures q.Ball(k + 1) == q.Ball(k)
  {
    NextBall(q, k, {});
  }

  function IdsOf(found: seq<Node>): (ids: seq<Id>)
    ensures |ids| == |found| && forall i :: 0 <= i < |ids| ==> ids[i] == found[i].id
  {
    seq(|found|, i requires 0 <= i < |found| => found[i].id)
  }

  lemma ListedIds(g: Graph, before: set<Id>, after: set<Id>, found: seq<Node>)
    requires g.WellFormed() && Lists(g, before, after, found) && after <= g.nodes.Keys
    ensures Elements(IdsOf(found)) == after - before
  {
    forall v | v in after - before
      ensures v in IdsOf(found)
    {
      var i :| 0 <= i < |found| && found[i] == g.nodes[v];
      assert IdsOf(found)[i] == v;
    }
    forall v | v in IdsOf(found)
      ensures v in after - before
    {
      var i :| 0 <= i < |found| && IdsOf(found)[i] == v;
      assert found[i] in found;
    }
  }

  /** The state of the traversal after `depth` rounds. */
  ghost predicate Rounds(q: Search, depth: nat, visited: set<Id>, frontier: seq<Id>, ordered: seq<Node>) {
    && visited == q.Ball(depth) <= q.g.nodes.Keys
    && (forall v :: v in Elements(frontier) <==> q.AtHops(v, depth))
    && Elements(frontier) <= visited
    && q.IsTraversal(depth, ordered)
  }

  lemma NextRing(q: Search, depth: nat, inner: set<Id>, outer: set<Id>, found: seq<Node>)
    requires q.g.WellFormed() && inner == q.Ball(depth) && outer == q.Ball(depth + 1)
    requires inner <= outer <= q.g.nodes.Keys && Lists(q.g, inner, outer, found)
    ensures inner + Elements(IdsOf(found)) == outer
    ensures forall v :: v in Elements(IdsOf(found)) <==> q.AtHops(v, depth + 1)
  {
    ListedIds(q.g, inner, outer, found);
  }

  lemma NextRound(q: Search, depth: nat, visited: set<Id>, frontier: seq<Id>, ordered: seq<Node>, found: seq<Node>)
    requires q.g.WellFormed() && q.start in q.g.nodes
    requires Rounds(q, depth, visited, frontier, ordered)
    requires Lists(q.g, visited, visited + q.NeighborsOf(Elements(frontier)), found)
    ensures Rounds(q, depth + 1, visited + Elements(IdsOf(found)), IdsOf(found), ordered + found)
  {
    var outer := visited + q.NeighborsOf(Elements(frontier));
    NextBall(q, depth, Elements(frontier));
    NextRing(q, depth, visited, outer, found);
    TraversalGrows(q, depth, ordered, found);
  }
}
