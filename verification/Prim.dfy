/** Prim's traversal and the trimming of unwanted leaves, the last two stages of the Steiner search. */
module Prim {
  import opened Basics
  import opened Graphs

  // ----- Prim's traversal -----

  type Queue = multiset<(Node, Node)>

  /** The queue holds edges of G that start inside the tree, and every edge that leaves the tree. */
  ghost predicate QueueCovers(E: set<Edge>, tree: set<Node>, queue: Queue) {
    && (forall q :: q in queue ==> q.0 in tree && Pair(q.0, q.1) in E)
    && (forall a, b :: a in tree && b !in tree && Pair(a, b) in E ==> (a, b) in queue)
  }

  /** Pushes the edges at v, each once, except the one that led there when it is listed from v's side. */
  method PushEdges(G: Graph, queue0: Queue, v: Node, skip: (Node, Node)) returns (queue: Queue)
    ensures forall q :: queue[q] == queue0[q] + Pushed(G, v, skip, q)
  {
    queue := queue0;
    var todo := Neighbors(G.nodes, G.edges, v);
    while todo != {}
      invariant todo <= Neighbors(G.nodes, G.edges, v)
      invariant forall q :: queue[q] == queue0[q] + if q.0 == v && q.1 in todo then 0 else Pushed(G, v, skip, q)
      decreases todo
    {
      var y :| y in todo;
      todo := todo - {y};
      if (v, y) != skip {
        queue := queue + multiset{(v, y)};
      }
    }
  }

  /** How often a pair is pushed at v. */
  function Pushed(G: Graph, v: Node, skip: (Node, Node), q: (Node, Node)): nat
    reads G
  {
    if q.0 == v && q.1 in G.nodes && Pair(v, q.1) in G.edges && q != skip then 1 else 0
  }

  ghost predicate Growing(G: Graph, mst: Graph, queue: Queue)
    reads G, mst
  {
    && IsTree(mst.nodes, mst.edges) && mst.nodes <= G.nodes && mst.edges <= G.edges
    && QueueCovers(G.edges, mst.nodes, queue)
  }

  /** Whatever order the heap hands edges out in, the result spans G and is a tree. */
  method MakePrimMst(G: Graph) returns (mst: Graph)
    requires G.nodes != {} && Within(G.nodes, G.edges) && Connected(G.nodes, G.edges)
    ensures fresh(mst) && IsTree(mst.nodes, mst.edges)
    ensures mst.nodes == G.nodes && mst.edges <= G.edges
  {
    mst := new Graph();
    var first :| first in G.nodes;
    mst.AddNode(first);
    SingleNodeTree(first);
    var queue := PushEdges(G, multiset{}, first, (first, first));
    FirstCovers(G.nodes, G.edges, first, queue);
    while |mst.edges| < |G.nodes| - 1
      invariant fresh(mst) && Growing(G, mst, queue)
      decreases G.nodes - mst.nodes, |queue|
    {
      queue := PopEdge(G, mst, queue);
    }
    TreeEdgeCount(mst.nodes, mst.edges);
    SameSize(mst.nodes, G.nodes);
  }

  /** One turn of the loop: pop an edge, and follow it if it leads somewhere new. Edges are queued
      from inside the tree, so only their far end can be new, and the heap cannot be empty. */
  method PopEdge(G: Graph, mst: Graph, queue0: Queue) returns (queue: Queue)
    requires G != mst && Within(G.nodes, G.edges) && Connected(G.nodes, G.edges)
    requires Growing(G, mst, queue0) && |mst.edges| < |G.nodes| - 1
    modifies mst
    ensures Growing(G, mst, queue)
    ensures mst.nodes > old(mst.nodes) || (mst.nodes == old(mst.nodes) && |queue| < |queue0|)
  {
    TreeEdgeCount(mst.nodes, mst.edges);
    StillLeaving(G.nodes, G.edges, mst.nodes, queue0);
    var edge :| edge in queue0;
    var (v1, v2) := edge;
    queue := queue0 - multiset{edge};
    WithinEnds(G.nodes, G.edges, v1, v2);
    if v2 !in mst.nodes {
      ghost var tree := mst.nodes;
      queue := PushEdges(G, queue, v2, edge);
      assert tree + {v1, v2} == tree + {v2};
      TreeAddLeaf(mst.nodes, mst.edges, v1, v2);
      CoversAfter(G.nodes, G.edges, tree, queue0, queue, edge);
      mst.AddEdge(v1, v2);
    }
  }

  lemma FirstCovers(nodes: set<Node>, E: set<Edge>, first: Node, queue: Queue)
    requires Within(nodes, E)
    requires forall q :: q in queue ==> q.0 == first && Pair(first, q.1) in E
    requires forall y :: y in Neighbors(nodes, E, first) && y != first ==> (first, y) in queue
    ensures QueueCovers(E, {first}, queue)
  {
    forall b | b != first && Pair(first, b) in E ensures (first, b) in queue {
      WithinEnds(nodes, E, first, b);
      assert b in Neighbors(nodes, E, first);
    }
  }

  lemma SameSize(A: set<Node>, B: set<Node>)
    requires A <= B && |A| >= |B|
    ensures A == B
  {
    if x :| x in B && x !in A {
      assert A <= B - {x};
      Smaller(A, B - {x});
    }
  }

  lemma {:induction false} Smaller(A: set<Node>, B: set<Node>)
    requires A <= B
    ensures |A| <= |B|
    decreases A
  {
    if x :| x in A {
      Smaller(A - {x}, B - {x});
    }
  }

  lemma OnlyOne(S: set<Node>, p: Node)
    requires |S| < 2 && p in S
    ensures S == {p}
  {
    forall y | y in S ensures y == p {
      if y != p { Smaller({y, p}, S); }
    }
  }

  lemma SingleNodeTree(x: Node)
    ensures IsTree({x}, {})
  {
    ConnRefl({}, x);
  }

  /** While nodes are missing, the heap is not empty. */
  lemma StillLeaving(nodes: set<Node>, E: set<Edge>, tree: set<Node>, queue: Queue)
    requires Within(nodes, E) && Connected(nodes, E) && QueueCovers(E, tree, queue)
    requires tree != {} && tree <= nodes && |tree| < |nodes|
    ensures exists q :: q in queue
  {
    var x :| x in tree;
    var y: Node;
    if forall z :: z in nodes ==> z in tree {
      Smaller(nodes, tree);
      assert false;
    } else {
      y :| y in nodes && y !in tree;
    }
    if forall a, b :: a in tree && Pair(a, b) in E ==> b in tree {
      ConnClosed(E, tree, x, y);
      assert false;
    }
  }

  lemma CoversAfter(nodes: set<Node>, E: set<Edge>, tree: set<Node>, before: Queue, queue: Queue, edge: (Node, Node))
    requires Within(nodes, E) && QueueCovers(E, tree, before) && edge in before && edge.0 in tree && edge.1 !in tree
    requires before - multiset{edge} <= queue
    requires forall q :: q in queue ==> q in before || (q.0 == edge.1 && Pair(edge.1, q.1) in E)
    requires forall y :: y in Neighbors(nodes, E, edge.1) && (edge.1, y) != edge ==> (edge.1, y) in queue
    ensures QueueCovers(E, tree + {edge.1}, queue)
  {
    forall a, b | a in tree + {edge.1} && b !in tree + {edge.1} && Pair(a, b) in E ensures (a, b) in queue {
      if a == edge.1 {
        WithinEnds(nodes, E, a, b);
        assert b in Neighbors(nodes, E, edge.1);
      } else {
        assert (a, b) in before && (a, b) != edge;
        assert (a, b) in before - multiset{edge};
      }
    }
  }

  // ----- Trimming -----

  /** Someone asked for x, or it still connects two others. */
  predicate Wanted(nodes: set<Node>, E: set<Edge>, voi: seq<Node>, x: Node) {
    x in voi || |Neighbors(nodes, E, x)| >= 2
  }

  /** Nodes recorded since the list was `before`. */
  ghost predicate Recorded(before: seq<Node>, track: seq<Node>, x: Node) {
    x in track && x !in before
  }

  /** What has been achieved below `node` when the record grew from `before` to `track`: the graph
      (N, E) shrank to (nodes, edges) by losing recorded nodes only, everything recorded and kept is
      wanted, and nothing recorded has an unrecorded neighbour. */
  ghost predicate Trimmed(N: set<Node>, E: set<Edge>, nodes: set<Node>, edges: set<Edge>, voi: seq<Node>,
                          before: seq<Node>, track: seq<Node>) {
    && IsTree(nodes, edges) && ToSet(voi) <= nodes <= N
    && (forall e :: e in edges <==> e in E && e <= nodes)
    && (forall x :: x in before ==> x in track)
    && (forall x :: x in track ==> x in before || x in N)
    && (forall x :: x in N && x !in nodes ==> Recorded(before, track, x))
    && (forall x :: Recorded(before, track, x) ==> Neighbors(N, E, x) <= ToSet(track))
    && (forall x :: x in nodes && Recorded(before, track, x) ==> Wanted(nodes, edges, voi, x))
  }

  /** Two rounds of trimming in a row: what the first round recorded stays wanted, because the second
      removes no neighbour of it. */
  lemma TrimmedThen(N0: set<Node>, E0: set<Edge>, N1: set<Node>, E1: set<Edge>, N2: set<Node>, E2: set<Edge>,
                    voi: seq<Node>, t0: seq<Node>, t1: seq<Node>, t2: seq<Node>)
    requires Trimmed(N0, E0, N1, E1, voi, t0, t1) && Trimmed(N1, E1, N2, E2, voi, t1, t2)
    requires Within(N0, E0)
    ensures Trimmed(N0, E0, N2, E2, voi, t0, t2)
  {
    forall x | Recorded(t0, t2, x) ensures Neighbors(N0, E0, x) <= ToSet(t2) {
      if x in t1 {
        assert Recorded(t0, t1, x);
      } else {
        assert Recorded(t1, t2, x);
        forall y | y in Neighbors(N0, E0, x) ensures y in t2 {
          if y in N1 {
            assert x in N1;
            assert Pair(x, y) in E1;
            assert y in Neighbors(N1, E1, x);
          } else {
            assert Recorded(t0, t1, y);
          }
        }
      }
    }
    forall x | x in N2 && Recorded(t0, t2, x) ensures Wanted(N2, E2, voi, x) {
      if x in t1 {
        assert Recorded(t0, t1, x) && Wanted(N1, E1, voi, x);
        KeepsNeighbors(N0, E0, N1, E1, N2, E2, t1, t2, x);
      } else {
        assert Recorded(t1, t2, x);
      }
    }
    forall x | x in N0 && x !in N2 ensures Recorded(t0, t2, x) {
      if x in N1 { assert Recorded(t1, t2, x); } else { assert Recorded(t0, t1, x); }
    }
  }

  lemma KeepsNeighbors(N0: set<Node>, E0: set<Edge>, N1: set<Node>, E1: set<Edge>, N2: set<Node>, E2: set<Edge>,
                       t1: seq<Node>, t2: seq<Node>, x: Node)
    requires N2 <= N1 <= N0 && x in N2 && Neighbors(N0, E0, x) <= ToSet(t1)
    requires forall e :: e in E1 <==> e in E0 && e <= N1
    requires forall e :: e in E2 <==> e in E1 && e <= N2
    requires forall y :: y in N1 && y !in N2 ==> Recorded(t1, t2, y)
    ensures Neighbors(N2, E2, x) == Neighbors(N1, E1, x)
  {
    forall y | y in Neighbors(N1, E1, x) ensures y in Neighbors(N2, E2, x) {
      assert y in Neighbors(N0, E0, x) && y in ToSet(t1);
      assert Pair(x, y) <= N2;
    }
  }

  /** The recursive trim. `node` is recorded already, and is either a vertex of interest or hangs off
      a recorded node that is not being trimmed here. */
  method Trim(node: Node, graph: Graph, track: seq<Node>, voi: seq<Node>,
              ghost before: seq<Node>) returns (track': seq<Node>)
    requires IsTree(graph.nodes, graph.edges) && ToSet(voi) <= graph.nodes && node in graph.nodes
    requires track == before + [node] && node !in before
    requires || (node in voi && |Neighbors(graph.nodes, graph.edges, node)| > 1)
             || exists p :: p in before && p in Neighbors(graph.nodes, graph.edges, node)
    modifies graph
    ensures Trimmed(old(graph.nodes), old(graph.edges), graph.nodes, graph.edges, voi, before, track')
    ensures node in track'
    decreases graph.nodes - ToSet(track)
  {
    ghost var N, E := graph.nodes, graph.edges;
    track' := track;
    var neighbors := Neighbors(graph.nodes, graph.edges, node);
    if |neighbors| > 1 {
      assert Trimmed(N, E, graph.nodes, graph.edges, voi, track, track') by { Untouched(N, E, voi, track); }
      var todo := neighbors;
      while todo != {}
        invariant todo <= neighbors
        invariant Trimmed(N, E, graph.nodes, graph.edges, voi, track, track')
        invariant neighbors - todo <= ToSet(track')
        decreases todo
      {
        var next :| next in todo;
        todo := todo - {next};
        if next !in track' {
          ghost var N1, E1, t1 := graph.nodes, graph.edges, track';
          assert node in graph.nodes && next in graph.nodes;
          assert Pair(next, node) in graph.edges by {
            assert Pair(node, next) in E && Pair(node, next) <= graph.nodes;
          }
          assert node in Neighbors(graph.nodes, graph.edges, next);
          assert next in ToSet(t1 + [next]) && next !in ToSet(track);
          assert ToSet(track) <= ToSet(t1 + [next]);
          track' := Trim(next, graph, track' + [next], voi, track');
          assert ToSet(t1) <= ToSet(track');
          TrimmedThen(N, E, N1, E1, graph.nodes, graph.edges, voi, track, t1, track');
        }
      }
    } else {
      Untouched(N, E, voi, track);
      ghost var p :| p in before && p in neighbors;
      OnlyOne(neighbors, p);
    }
    assert neighbors <= ToSet(track');
    ghost var N1, E1 := graph.nodes, graph.edges;
    if |Neighbors(graph.nodes, graph.edges, node)| < 2 && node !in voi {
      ghost var p :| p in before && p in Neighbors(N, E, node);
      graph.RemoveNode(node);
      FinishDrop(N, E, N1, E1, graph.edges, voi, node, p, before, track');
    } else {
      FinishKeep(N, E, N1, E1, voi, node, before, track');
    }
  }

  /** `node` itself stays: it joins the nodes recorded below it. */
  lemma FinishKeep(N: set<Node>, E: set<Edge>, nodes: set<Node>, edges: set<Edge>, voi: seq<Node>,
                   node: Node, before: seq<Node>, track: seq<Node>)
    requires Trimmed(N, E, nodes, edges, voi, before + [node], track) && node in N && node !in before
    requires Neighbors(N, E, node) <= ToSet(track) && Wanted(nodes, edges, voi, node)
    ensures Trimmed(N, E, nodes, edges, voi, before, track)
  {
    assert node in before + [node];
    forall x | Recorded(before, track, x) ensures x == node || Recorded(before + [node], track, x) {}
  }

  /** `node` goes: the only neighbour it has left is the one it hangs off, so nothing recorded below
      it loses a neighbour. */
  lemma FinishDrop(N: set<Node>, E: set<Edge>, nodes: set<Node>, edges: set<Edge>, edges': set<Edge>, voi: seq<Node>,
                   node: Node, p: Node, before: seq<Node>, track: seq<Node>)
    requires Trimmed(N, E, nodes, edges, voi, before + [node], track) && node in N && node !in before && node !in voi
    requires Neighbors(N, E, node) <= ToSet(track) && |Neighbors(nodes, edges, node)| < 2
    requires p in before && p in Neighbors(N, E, node)
    requires forall e :: e in edges' <==> e in edges && node !in e
    ensures Trimmed(N, E, nodes - {node}, edges', voi, before, track)
  {
    assert p in before + [node] && node in before + [node];
    assert p in nodes && node in nodes;
    assert Pair(node, p) in edges by { assert Pair(node, p) <= nodes; }
    var near := Neighbors(nodes, edges, node);
    assert p in near;
    OnlyOne(near, p);
    TreeRemoveLeaf(nodes, edges, node, p, edges');
    forall x | x in nodes - {node} && Recorded(before, track, x) ensures Wanted(nodes - {node}, edges', voi, x) {
      assert Recorded(before + [node], track, x) && Wanted(nodes, edges, voi, x);
      assert Pair(x, node) == Pair(node, x) && x !in near;
      assert node !in Neighbors(nodes, edges, x);
      forall y | y in Neighbors(nodes, edges, x) ensures y in Neighbors(nodes - {node}, edges', x) {
        assert node !in Pair(x, y);
      }
      assert Neighbors(nodes - {node}, edges', x) == Neighbors(nodes, edges, x);
    }
    forall x | Recorded(before, track, x) ensures Neighbors(N, E, x) <= ToSet(track) {
      assert x == node || Recorded(before + [node], track, x);
    }
    forall e ensures e in edges' <==> e in E && e <= nodes - {node} {}
  }

  lemma Untouched(N: set<Node>, E: set<Edge>, voi: seq<Node>, track: seq<Node>)
    requires IsTree(N, E) && ToSet(voi) <= N
    ensures Trimmed(N, E, N, E, voi, track, track)
  {
    forall e | e in E ensures e <= N {
      var a, b := EdgeEnds(N, E, e);
    }
  }

  /** Trims from the first vertex of interest: afterwards the tree still holds all of them and every
      other node in it connects at least two neighbours. */
  method TrimTree(graph: Graph, voi: seq<Node>)
    requires IsTree(graph.nodes, graph.edges) && ToSet(voi) <= graph.nodes && |voi| > 1 && voi[0] != voi[1]
    modifies graph
    ensures IsTree(graph.nodes, graph.edges) && ToSet(voi) <= graph.nodes <= old(graph.nodes)
    ensures graph.edges <= old(graph.edges)
    ensures forall x :: x in graph.nodes ==> Wanted(graph.nodes, graph.edges, voi, x)
  {
    ghost var N, E := graph.nodes, graph.edges;
    var first := voi[0];
    var neighbors := Neighbors(graph.nodes, graph.edges, first);
    assert first in ToSet(voi) && voi[1] in ToSet(voi);
    HasNeighbor(N, E, first, voi[1]);
    var track;
    if |neighbors| < 2 {
      var next :| next in neighbors;
      OnlyOne(neighbors, next);
      WithinEnds(N, E, first, next);
      assert first in Neighbors(N, E, next);
      track := Trim(next, graph, [first, next], voi, [first]);
      TracksAll(N, E, graph.nodes, graph.edges, voi, [first], track, first);
    } else {
      track := Trim(first, graph, [first], voi, []);
      assert Recorded([], track, first);
      TracksAll(N, E, graph.nodes, graph.edges, voi, [], track, first);
    }
  }

  lemma HasNeighbor(N: set<Node>, E: set<Edge>, x: Node, y: Node)
    requires IsTree(N, E) && x in N && y in N && x != y
    ensures |Neighbors(N, E, x)| > 0
  {
    assert Conn(E, x, y);
    var p :| WalkFrom(E, p, x, y);
    assert Pair(p[0], p[1]) in E;
    WithinEnds(N, E, p[0], p[1]);
    assert p[1] in Neighbors(N, E, x);
  }

  /** The record is closed under adjacency, so it is the whole tree. */
  lemma TracksAll(N: set<Node>, E: set<Edge>, nodes: set<Node>, edges: set<Edge>, voi: seq<Node>,
                  before: seq<Node>, track: seq<Node>, first: Node)
    requires IsTree(N, E) && Trimmed(N, E, nodes, edges, voi, before, track)
    requires first in N && first in track && first in voi
    requires forall x :: x in before ==> x == first && Neighbors(N, E, x) <= ToSet(track)
    ensures forall x :: x in nodes ==> Wanted(nodes, edges, voi, x)
  {
    forall u, v | u in ToSet(track) && Pair(u, v) in E ensures v in ToSet(track) {
      WithinEnds(N, E, u, v);
      assert v in Neighbors(N, E, u);
      assert u in before || Recorded(before, track, u);
    }
    forall x | x in nodes ensures Wanted(nodes, edges, voi, x) {
      ConnClosed(E, ToSet(track), first, x);
      assert x in before || Recorded(before, track, x);
    }
  }
}
