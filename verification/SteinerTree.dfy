/** Kou's Steiner tree algorithm: a minimum tree on the pairwise distances of the vertices of
    interest, the union of the paths it stands for, Prim's traversal to drop loops, and recursive
    trimming of the leaves nobody asked for. */
module SteinerTree {
  import opened Basics
  import opened Graphs
  import opened MinimumTree
  import opened Prim

  datatype Topo = Topo(nodes: set<Node>, weight: map<Edge, nat>)

  datatype ShortestPath = NoPath | Path(distance: nat, vertices: seq<Node>)

  /** What bidirectional Dijkstra promises: a walk of least total weight, or that there is none. */
  ghost predicate IsShortest(G: Topo, x: Node, y: Node, r: ShortestPath) {
    match r
    case NoPath => !Conn(G.weight.Keys, x, y)
    case Path(d, p) => ShortestWalk(G, x, y, p) && d == Length(p, G.weight)
  }

  ghost predicate ShortestWalk(G: Topo, x: Node, y: Node, p: seq<Node>) {
    && WalkFrom(G.weight.Keys, p, x, y)
    && forall q :: WalkFrom(G.weight.Keys, q, x, y) ==> Length(p, G.weight) <= Length(q, G.weight)
  }

  type PathFinder = (Topo, Node, Node) -> ShortestPath

  ghost predicate FindsShortest(dijkstra: PathFinder) {
    forall G, x, y :: IsShortest(G, x, y, dijkstra(G, x, y))
  }

  datatype Outcome = MissingVertex | Unreachable | Found(tree: Graph)

  // ----- Distances between the vertices of interest -----

  datatype Item = Item(distance: nat, v1: Node, v2: Node)

  type Heap = multiset<Item>

  ghost predicate HoldsPath(G: Topo, paths: map<Edge, seq<Node>>, e: Edge) {
    exists x, y :: e in paths && e == Pair(x, y) && ShortestWalk(G, x, y, paths[e])
  }

  ghost predicate HoldsPaths(G: Topo, paths: map<Edge, seq<Node>>) {
    forall e {:trigger HoldsPath(G, paths, e)} :: e in paths ==> HoldsPath(G, paths, e)
  }

  ghost function Distances(G: Topo, paths: map<Edge, seq<Node>>): map<Edge, nat> {
    map e | e in paths :: Length(paths[e], G.weight)
  }

  /** Every queued item names two terminals and carries the recorded distance between them. */
  ghost predicate WellQueued(T: set<Node>, D: map<Edge, nat>, heap: Heap) {
    forall x :: x in heap ==>
      x.v1 in T && x.v2 in T && x.v1 != x.v2 && Pair(x.v1, x.v2) in D && x.distance == D[Pair(x.v1, x.v2)]
  }

  ghost predicate Queued(heap: Heap, e: Edge) {
    exists x :: x in heap && Pair(x.v1, x.v2) == e
  }

  ghost predicate Loaded(G: Topo, T: set<Node>, paths: map<Edge, seq<Node>>, heap: Heap) {
    && HoldsPaths(G, paths)
    && (forall e {:trigger Queued(heap, e)} :: e in paths ==> Queued(heap, e))
    && WellQueued(T, Distances(G, paths), heap)
    && Within(T, paths.Keys)
  }

  /** Loads a shortest path for every two vertices of interest, or reports that one is missing. */
  method LoadPaths(G: Topo, voi: seq<Node>, dijkstra: PathFinder)
    returns (reachable: bool, paths: map<Edge, seq<Node>>, heap: Heap)
    requires FindsShortest(dijkstra) && Distinct(voi)
    ensures reachable <==> Connected(ToSet(voi), G.weight.Keys)
    ensures reachable ==> Loaded(G, ToSet(voi), paths, heap)
    ensures reachable ==> forall x, y :: x in voi && y in voi && x != y ==> Pair(x, y) in paths
  {
    paths, heap := map[], multiset{};
    for i := 0 to |voi|
      invariant Loaded(G, ToSet(voi), paths, heap)
      invariant forall k :: 0 <= k < i ==> RowLoaded(voi, paths.Keys, k, |voi|)
    {
      ghost var keys := paths.Keys;
      reachable, paths, heap := LoadRow(G, voi, i, paths, heap, dijkstra);
      if !reachable {
        return;
      }
      forall k | 0 <= k < i ensures RowLoaded(voi, paths.Keys, k, |voi|) {
        assert RowLoaded(voi, keys, k, |voi|);
      }
    }
    reachable := true;
    RowsCover(voi, paths);
    AllReachable(G, ToSet(voi), paths, heap);
  }

  /** The inner loop: the paths from voi[i] to the vertices after it. */
  method LoadRow(G: Topo, voi: seq<Node>, i: nat, paths0: map<Edge, seq<Node>>, heap0: Heap, dijkstra: PathFinder)
    returns (reachable: bool, paths: map<Edge, seq<Node>>, heap: Heap)
    requires FindsShortest(dijkstra) && Distinct(voi) && i < |voi| && Loaded(G, ToSet(voi), paths0, heap0)
    ensures !reachable ==> !Connected(ToSet(voi), G.weight.Keys)
    ensures reachable ==> Loaded(G, ToSet(voi), paths, heap) && RowLoaded(voi, paths.Keys, i, |voi|)
    ensures reachable ==> paths0.Keys <= paths.Keys
  {
    paths, heap := paths0, heap0;
    for j := i + 1 to |voi|
      invariant Loaded(G, ToSet(voi), paths, heap) && paths0.Keys <= paths.Keys
      invariant RowLoaded(voi, paths.Keys, i, j)
    {
      reachable, paths, heap := LoadPair(G, ToSet(voi), paths, heap, voi[i], voi[j], dijkstra);
      if !reachable {
        return;
      }
    }
    reachable := true;
  }

  method LoadPair(G: Topo, ghost T: set<Node>, paths: map<Edge, seq<Node>>, heap: Heap, u: Node, v: Node,
                  dijkstra: PathFinder)
    returns (reachable: bool, paths': map<Edge, seq<Node>>, heap': Heap)
    requires FindsShortest(dijkstra) && u in T && v in T && u != v && Loaded(G, T, paths, heap)
    ensures reachable ==> Loaded(G, T, paths', heap') && paths'.Keys == paths.Keys + {Pair(u, v)}
    ensures !reachable ==> !Connected(T, G.weight.Keys)
  {
    var result := dijkstra(G, u, v);
    assert IsShortest(G, u, v, result);
    if result == NoPath {
      return false, paths, heap;
    }
    LoadOne(G, T, paths, heap, u, v, result);
    reachable := true;
    paths' := paths[Pair(u, v) := result.vertices];
    heap' := heap + multiset{Item(result.distance, u, v)};
  }

  predicate RowLoaded(voi: seq<Node>, keys: set<Edge>, k: nat, j: nat)
    requires k < |voi| && j <= |voi|
  {
    forall l :: k < l < j ==> Pair(voi[k], voi[l]) in keys
  }

  lemma RowsCover(voi: seq<Node>, paths: map<Edge, seq<Node>>)
    requires forall k :: 0 <= k < |voi| ==> RowLoaded(voi, paths.Keys, k, |voi|)
    ensures forall x, y :: x in voi && y in voi && x != y ==> Pair(x, y) in paths
  {
    forall x, y | x in voi && y in voi && x != y ensures Pair(x, y) in paths {
      var k :| 0 <= k < |voi| && voi[k] == x;
      var l :| 0 <= l < |voi| && voi[l] == y;
      var i, j := if k < l then k else l, if k < l then l else k;
      assert RowLoaded(voi, paths.Keys, i, |voi|);
      assert Pair(voi[i], voi[j]) == Pair(x, y);
    }
  }

  lemma SamePairSameLength(G: Topo, x: Node, y: Node, p: seq<Node>, a: Node, b: Node, q: seq<Node>)
    requires Pair(x, y) == Pair(a, b) && ShortestWalk(G, x, y, p) && ShortestWalk(G, a, b, q)
    ensures Length(p, G.weight) == Length(q, G.weight)
  {
    PairInjective(x, y, a, b);
    if x != a {
      var p' := WalkBack(G.weight.Keys, p, G.weight);
      var q' := WalkBack(G.weight.Keys, q, G.weight);
    }
  }

  lemma LoadOne(G: Topo, T: set<Node>, paths: map<Edge, seq<Node>>, heap: Heap, u: Node, v: Node, r: ShortestPath)
    requires u in T && v in T && u != v && Loaded(G, T, paths, heap)
    requires r.Path? && IsShortest(G, u, v, r)
    ensures Loaded(G, T, paths[Pair(u, v) := r.vertices], heap + multiset{Item(r.distance, u, v)})
  {
    var e := Pair(u, v);
    var paths', heap' := paths[e := r.vertices], heap + multiset{Item(r.distance, u, v)};
    var D, D' := Distances(G, paths), Distances(G, paths');
    forall d | d in paths' ensures HoldsPath(G, paths', d) && Queued(heap', d) {
      assert d in paths ==> Queued(heap, d);
      if d == e {
        assert ShortestWalk(G, u, v, paths'[e]);
        assert Item(r.distance, u, v) in heap';
      } else {
        assert HoldsPath(G, paths, d);
        var x, y :| d in paths && d == Pair(x, y) && ShortestWalk(G, x, y, paths[d]);
        assert ShortestWalk(G, x, y, paths'[d]);
        var item :| item in heap && Pair(item.v1, item.v2) == d;
        assert item in heap';
      }
    }
    forall x | x in heap'
      ensures x.v1 in T && x.v2 in T && x.v1 != x.v2 && Pair(x.v1, x.v2) in D' && x.distance == D'[Pair(x.v1, x.v2)]
    {
      if x in heap {
        assert Pair(x.v1, x.v2) in D && x.distance == D[Pair(x.v1, x.v2)];
        if Pair(x.v1, x.v2) == e {
          assert HoldsPath(G, paths, e);
          var a, b :| e in paths && e == Pair(a, b) && ShortestWalk(G, a, b, paths[e]);
          SamePairSameLength(G, u, v, r.vertices, a, b, paths[e]);
        }
      }
    }
  }

  lemma AllReachable(G: Topo, T: set<Node>, paths: map<Edge, seq<Node>>, heap: Heap)
    requires Loaded(G, T, paths, heap)
    requires forall x, y :: x in T && y in T && x != y ==> Pair(x, y) in paths
    ensures Connected(T, G.weight.Keys)
  {
    var K := G.weight.Keys;
    forall x, y | x in T && y in T ensures Conn(K, x, y) {
      if x == y {
        ConnRefl(K, x);
      } else {
        var e := Pair(x, y);
        assert HoldsPath(G, paths, e);
        var a, b :| e in paths && e == Pair(a, b) && ShortestWalk(G, a, b, paths[e]);
        assert Conn(K, a, b);
        PairInjective(a, b, x, y);
        ConnSym(K, a, b);
      }
    }
  }

  /** The recorded distances undercut every walk between two vertices of interest. */
  lemma DistancesPrice(G: Topo, T: set<Node>, paths: map<Edge, seq<Node>>, heap: Heap)
    requires Loaded(G, T, paths, heap)
    requires forall x, y :: x in T && y in T && x != y ==> Pair(x, y) in paths
    ensures PricesPairs(T, Distances(G, paths), G.weight)
  {
    var D := Distances(G, paths);
    forall a, b, q | a in T && b in T && a != b && WalkFrom(G.weight.Keys, q, a, b)
      ensures Cost(D, Pair(a, b)) <= Length(q, G.weight)
    {
      var e := Pair(a, b);
      assert HoldsPath(G, paths, e);
      var x, y :| e in paths && e == Pair(x, y) && ShortestWalk(G, x, y, paths[e]);
      PairInjective(a, b, x, y);
      var q' := WalkBack(G.weight.Keys, q, G.weight);
    }
  }

  // ----- Kruskal's stage -----

  predicate IsLeast(heap: Heap, m: Item) {
    m in heap && forall x :: x in heap ==> m.distance <= x.distance
  }

  lemma {:induction false} LeastItem(heap: Heap)
    requires |heap| > 0
    ensures exists m :: IsLeast(heap, m)
    decreases |heap|
  {
    var a :| a in heap;
    var rest := heap - multiset{a};
    assert forall x :: x in heap ==> x == a || x in rest;
    if |rest| == 0 {
      assert IsLeast(heap, a);
    } else {
      LeastItem(rest);
      var m :| IsLeast(rest, m);
      assert IsLeast(heap, if m.distance <= a.distance then m else a);
    }
  }

  ghost predicate JoinedPair(M: set<Edge>, e: Edge) {
    exists a, b :: e == Pair(a, b) && Conn(M, a, b)
  }

  /** Every priced pair is joined already or still queued. */
  ghost predicate Pending(D: map<Edge, nat>, heap: Heap, M: set<Edge>) {
    forall e {:trigger JoinedPair(M, e)} {:trigger Queued(heap, e)} :: e in D ==> JoinedPair(M, e) || Queued(heap, e)
  }

  lemma PopKeeps(D: map<Edge, nat>, heap: Heap, item: Item, M: set<Edge>, M': set<Edge>)
    requires Pending(D, heap, M) && item in heap && M <= M' && Conn(M', item.v1, item.v2)
    ensures Pending(D, heap - multiset{item}, M')
  {
    forall e | e in D ensures JoinedPair(M', e) || Queued(heap - multiset{item}, e) {
      assert JoinedPair(M, e) || Queued(heap, e);
      if JoinedPair(M, e) {
        var a, b :| e == Pair(a, b) && Conn(M, a, b);
        ConnMono(M, M', a, b);
      } else {
        var x :| x in heap && Pair(x.v1, x.v2) == e;
        if x != item { assert x in heap - multiset{item}; }
      }
    }
  }

  /** The cheapest queued pair that joins something new is a greedy choice. */
  lemma PopIsGreedy(T: set<Node>, D: map<Edge, nat>, heap: Heap, item: Item, M: set<Edge>)
    requires Within(T, D.Keys) && Promising(T, D, M) && Pending(D, heap, M) && WellQueued(T, D, heap)
    requires IsLeast(heap, item) && !Conn(M, item.v1, item.v2)
    ensures Promising(T, D, M + {Pair(item.v1, item.v2)})
  {
    forall a, b | Pair(a, b) in D && !Conn(M, a, b) ensures D[Pair(item.v1, item.v2)] <= D[Pair(a, b)] {
      if JoinedPair(M, Pair(a, b)) {
        var c, d :| Pair(a, b) == Pair(c, d) && Conn(M, c, d);
        PairInjective(a, b, c, d);
        ConnSym(M, c, d);
        assert false;
      }
      var x :| x in heap && Pair(x.v1, x.v2) == Pair(a, b);
    }
    GreedyStep(T, D, M, item.v1, item.v2);
  }

  lemma NotJoined(nodes: set<Node>, E: set<Edge>, x: Node, y: Node)
    requires Within(nodes, E) && x != y && (x !in nodes || y !in nodes)
    ensures !Conn(E, x, y)
  {
    if Conn(E, x, y) {
      ConnSym(E, x, y);
      var z := if x !in nodes then x else y;
      forall t ensures Pair(z, t) !in E {
        if Pair(z, t) in E { WithinEnds(nodes, E, z, t); }
      }
      Isolated(E, z, if z == x then y else x);
    }
  }

  lemma WithinAdd(nodes: set<Node>, E: set<Edge>, u: Node, v: Node)
    requires Within(nodes, E) && u != v
    ensures Within(nodes + {u, v}, E + {Pair(u, v)})
  {
    forall e | e in E + {Pair(u, v)}
      ensures EdgeOf(nodes + {u, v}, e)
    {
      if e in E {
        var a, b := EdgeEnds(nodes, E, e);
        EdgeOfPair(nodes + {u, v}, a, b);
      } else {
        EdgeOfPair(nodes + {u, v}, u, v);
      }
    }
  }

  /** Pops the pairs by distance and keeps the ones that join something new. The chosen pairs join
      all terminals at the least total distance. */
  method JoinByDistance(ghost T: set<Node>, loaded: Heap, ghost D: map<Edge, nat>) returns (mst: Graph)
    requires |T| > 1 && Within(T, D.Keys) && WellQueued(T, D, loaded) && Pending(D, loaded, {})
    requires forall x, y :: x in T && y in T && x != y ==> Pair(x, y) in D
    ensures fresh(mst) && mst.nodes == T && mst.edges <= D.Keys
    ensures Connected(T, mst.edges) && Promising(T, D, mst.edges)
  {
    mst := new Graph();
    var heap := loaded;
    PromisingStart(T, D);
    while |heap| > 0
      invariant fresh(mst) && WellQueued(T, D, heap) && Pending(D, heap, mst.edges)
      invariant mst.edges <= D.Keys && mst.nodes <= T && Within(mst.nodes, mst.edges)
      invariant Promising(T, D, mst.edges)
      decreases |heap|
    {
      LeastItem(heap);
      var item :| IsLeast(heap, item);
      var Item(w, v1, v2) := item;
      ghost var M := mst.edges;
      var joined := false;
      if v1 in mst.nodes && v2 in mst.nodes {
        joined := mst.HasPath(v1, v2);
      } else {
        NotJoined(mst.nodes, M, v1, v2);
      }
      if !joined {
        PopIsGreedy(T, D, heap, item, M);
        WithinAdd(mst.nodes, M, v1, v2);
        mst.AddEdge(v1, v2);
        ConnStep(mst.edges, v1, v2);
      }
      PopKeeps(D, heap, item, M, mst.edges);
      heap := heap - multiset{item};
    }
    AllJoined(T, D, heap, mst.edges);
    // The source compares the node sets here and raises when they differ; they never do.
    forall x | x in T ensures x in mst.nodes {
      var y := Another(T, x);
      if x !in mst.nodes { NotJoined(mst.nodes, mst.edges, x, y); }
    }
  }

  lemma Another(T: set<Node>, x: Node) returns (y: Node)
    requires |T| > 1 && x in T
    ensures y in T && y != x
  {
    assert |T - {x}| > 0;
    y :| y in T - {x};
  }

  lemma AllJoined(T: set<Node>, D: map<Edge, nat>, heap: Heap, M: set<Edge>)
    requires |heap| == 0 && Pending(D, heap, M)
    requires forall x, y :: x in T && y in T && x != y ==> Pair(x, y) in D
    ensures Connected(T, M)
  {
    forall x, y | x in T && y in T ensures Conn(M, x, y) {
      if x == y {
        ConnRefl(M, x);
      } else {
        assert !Queued(heap, Pair(x, y));
        var a, b :| Pair(x, y) == Pair(a, b) && Conn(M, a, b);
        PairInjective(x, y, a, b);
        ConnSym(M, a, b);
      }
    }
  }

  // ----- Union of the chosen paths -----

  /** E replaces every edge of M by a walk, so it joins whatever M joins. */
  lemma {:induction false} ConnLift(M: set<Edge>, E: set<Edge>, p: seq<Node>, x: Node, y: Node)
    requires WalkFrom(M, p, x, y)
    requires forall a, b :: Pair(a, b) in M ==> Conn(E, a, b)
    ensures Conn(E, x, y)
    decreases |p|
  {
    if |p| == 1 {
      ConnRefl(E, x);
    } else {
      ConnLift(M, E, p[..|p| - 1], x, p[|p| - 2]);
      assert Pair(p[|p| - 2], p[|p| - 1]) in M;
      ConnTrans(E, x, p[|p| - 2], y);
    }
  }

  method AddPath(g: Graph, p: seq<Node>)
    modifies g
    ensures g.edges == old(g.edges) + WalkEdges(p)
    ensures g.nodes == old(g.nodes) + if |p| > 1 then ToSet(p) else {}
  {
    if |p| > 1 {
      assert p[..1] == [p[0]];
      for i := 0 to |p| - 1
        invariant g.edges == old(g.edges) + WalkEdges(p[..i + 1])
        invariant g.nodes == old(g.nodes) + if i > 0 then ToSet(p[..i + 1]) else {}
      {
        g.AddEdge(p[i], p[i + 1]);
        assert p[..i + 2][..i + 1] == p[..i + 1];
        assert ToSet(p[..i + 2]) == (if i > 0 then ToSet(p[..i + 1]) else {}) + {p[i], p[i + 1]};
      }
      assert p[..|p|] == p;
    }
  }

  ghost predicate Anchored(T: set<Node>, E: set<Edge>, x: Node) {
    exists t :: t in T && Conn(E, x, t)
  }

  ghost predicate Anchors(T: set<Node>, E: set<Edge>, nodes: set<Node>) {
    forall x {:trigger Anchored(T, E, x)} :: x in nodes ==> Anchored(T, E, x)
  }

  /** What the union of the paths recorded for the pairs in `done` looks like. */
  ghost predicate Unites(G: Topo, T: set<Node>, paths: map<Edge, seq<Node>>, done: set<Edge>, nodes: set<Node>,
                         E: set<Edge>)
    requires done <= paths.Keys
  {
    && E <= G.weight.Keys
    && Weight(E, G.weight) <= Weight(done, Distances(G, paths))
    && (forall e :: e in done ==> WalkEdges(paths[e]) <= E && (|paths[e]| > 1 ==> ToSet(paths[e]) <= nodes))
    && Anchors(T, E, nodes)
    && (forall e :: e in E ==> e <= nodes)
  }

  method UnitePaths(G: Topo, ghost T: set<Node>, chosen: set<Edge>,
                    paths: map<Edge, seq<Node>>) returns (subgraph: Graph)
    requires chosen <= paths.Keys && Within(T, paths.Keys)
    requires HoldsPaths(G, paths)
    ensures fresh(subgraph) && Unites(G, T, paths, chosen, subgraph.nodes, subgraph.edges)
  {
    subgraph := new Graph();
    var todo := chosen;
    while todo != {}
      invariant todo <= chosen && Unites(G, T, paths, chosen - todo, subgraph.nodes, subgraph.edges)
      decreases todo
    {
      var e :| e in todo;
      ghost var done := chosen - todo;
      UniteOne(G, T, paths, done, subgraph.nodes, subgraph.edges, e);
      todo := todo - {e};
      AddPath(subgraph, paths[e]);
      assert chosen - todo == done + {e};
    }
    assert chosen - todo == chosen;
  }

  lemma UniteOne(G: Topo, T: set<Node>, paths: map<Edge, seq<Node>>, done: set<Edge>, nodes: set<Node>, E: set<Edge>,
                 e: Edge)
    requires done <= paths.Keys && Unites(G, T, paths, done, nodes, E) && Within(T, paths.Keys)
    requires e in paths && e !in done && HoldsPath(G, paths, e)
    ensures Unites(G, T, paths, done + {e}, nodes + (if |paths[e]| > 1 then ToSet(paths[e]) else {}),
                   E + WalkEdges(paths[e]))
  {
    var p := paths[e];
    var x, y :| e in paths && e == Pair(x, y) && ShortestWalk(G, x, y, p);
    WithinEnds(T, paths.Keys, x, y);
    WalkEdgesSubset(G.weight.Keys, p);
    UniteWeight(G, paths, done, E, e);
    UniteNodes(T, nodes, E, p, y);
    forall d | d in E + WalkEdges(p) ensures d <= nodes + if |p| > 1 then ToSet(p) else {} {
      if d !in E { WalkEdgesOn(p, d); }
    }
  }

  lemma UniteWeight(G: Topo, paths: map<Edge, seq<Node>>, done: set<Edge>, E: set<Edge>, e: Edge)
    requires e in paths && e !in done && Weight(E, G.weight) <= Weight(done, Distances(G, paths))
    ensures Weight(E + WalkEdges(paths[e]), G.weight) <= Weight(done + {e}, Distances(G, paths))
  {
    WalkEdgesWeight(paths[e], G.weight);
    WeightUnion(E, WalkEdges(paths[e]), G.weight);
    WeightAdd(done, Distances(G, paths), e);
  }

  lemma UniteNodes(T: set<Node>, nodes: set<Node>, E: set<Edge>, p: seq<Node>, y: Node)
    requires |p| > 0 && p[|p| - 1] == y && y in T
    requires Anchors(T, E, nodes)
    ensures Anchors(T, E + WalkEdges(p), nodes + ToSet(p))
  {
    var E' := E + WalkEdges(p);
    forall z | z in nodes + ToSet(p) ensures Anchored(T, E', z) {
      if z in nodes {
        assert Anchored(T, E, z);
        var t :| t in T && Conn(E, z, t);
        ConnMono(E, E', z, t);
      } else {
        var i :| 0 <= i < |p| && p[i] == z;
        WalkWithin(p);
        SubWalk(WalkEdges(p), p, i, |p|);
        assert Conn(WalkEdges(p), z, y);
        ConnMono(WalkEdges(p), E', z, y);
      }
    }
  }

  lemma {:induction false} WalkEdgesOn(p: seq<Node>, e: Edge)
    requires e in WalkEdges(p)
    ensures |p| > 1 && e <= ToSet(p)
    decreases |p|
  {
    if e != Pair(p[|p| - 2], p[|p| - 1]) {
      WalkEdgesOn(p[..|p| - 1], e);
      assert ToSet(p[..|p| - 1]) <= ToSet(p);
    }
  }

  /** Each chosen pair is joined by the union of the paths, and its ends are in it. */
  lemma ChosenJoined(G: Topo, T: set<Node>, paths: map<Edge, seq<Node>>, M: set<Edge>, nodes: set<Node>, E: set<Edge>,
                     a: Node, b: Node)
    requires M <= paths.Keys && Unites(G, T, paths, M, nodes, E) && Within(T, paths.Keys)
    requires Pair(a, b) in M && HoldsPath(G, paths, Pair(a, b))
    ensures Conn(E, a, b) && a in nodes && b in nodes
  {
    var e := Pair(a, b);
    var p := paths[e];
    var x, y :| e in paths && e == Pair(x, y) && ShortestWalk(G, x, y, p);
    WithinEnds(T, paths.Keys, x, y);
    WalkWithin(p);
    assert Conn(WalkEdges(p), x, y);
    ConnMono(WalkEdges(p), E, x, y);
    ConnSym(E, x, y);
    assert x in ToSet(p) && y in ToSet(p);
    PairInjective(a, b, x, y);
  }

  /** The united paths form one connected graph that holds every terminal. */
  lemma UnitedConnected(G: Topo, T: set<Node>, paths: map<Edge, seq<Node>>, M: set<Edge>, nodes: set<Node>,
                        E: set<Edge>)
    requires |T| > 1 && M <= paths.Keys && Unites(G, T, paths, M, nodes, E) && Connected(T, M) && Within(T, paths.Keys)
    requires HoldsPaths(G, paths)
    ensures T <= nodes && Connected(nodes, E)
  {
    forall a, b | Pair(a, b) in M ensures Conn(E, a, b) && a in nodes && b in nodes {
      ChosenJoined(G, T, paths, M, nodes, E, a, b);
    }
    forall t | t in T ensures t in nodes {
      var s := Another(T, t);
      assert Conn(M, t, s);
      var p :| WalkFrom(M, p, t, s);
      assert Pair(p[0], p[1]) in M;
    }
    JoinedThrough(T, M, nodes, E);
  }

  lemma JoinedThrough(T: set<Node>, M: set<Edge>, nodes: set<Node>, E: set<Edge>)
    requires Connected(T, M) && forall a, b :: Pair(a, b) in M ==> Conn(E, a, b)
    requires Anchors(T, E, nodes)
    ensures Connected(nodes, E)
  {
    forall x, y | x in nodes && y in nodes ensures Conn(E, x, y) {
      assert Anchored(T, E, x) && Anchored(T, E, y);
      var s :| s in T && Conn(E, x, s);
      var t :| t in T && Conn(E, y, t);
      assert Conn(M, s, t);
      var p :| WalkFrom(M, p, s, t);
      ConnLift(M, E, p, s, t);
      ConnSym(E, y, t);
      ConnTrans(E, x, s, t);
      ConnTrans(E, x, t, y);
    }
  }

  // ----- The whole search -----

  /** The whole search. A found tree is a tree of G that holds every vertex of interest, whose leaves
      are all vertices of interest, and that weighs at most twice any subgraph of G joining them. */
  method MakeSteinerTree(G: Topo, voi: seq<Node>, dijkstra: PathFinder) returns (r: Outcome)
    requires FindsShortest(dijkstra) && Within(G.nodes, G.weight.Keys) && Distinct(voi)
    ensures r.MissingVertex? <==> !(ToSet(voi) <= G.nodes)
    ensures r.Unreachable? <==> ToSet(voi) <= G.nodes && !Connected(ToSet(voi), G.weight.Keys)
    ensures r.Unreachable? ==> |voi| > 1
    ensures r.Found? ==> fresh(r.tree) && ToSet(voi) <= r.tree.nodes && r.tree.edges <= G.weight.Keys
    ensures r.Found? ==> r.tree.nodes <= G.nodes
    ensures r.Found? && |voi| < 2 ==> r.tree.nodes == ToSet(voi) && r.tree.edges == {}
    ensures r.Found? && |voi| > 0 ==> IsTree(r.tree.nodes, r.tree.edges)
    ensures r.Found? ==> forall x :: x in r.tree.nodes ==> Wanted(r.tree.nodes, r.tree.edges, voi, x)
    ensures r.Found? ==> WithinTwiceBest(G, ToSet(voi), r.tree.edges)
  {
    if exists v :: v in voi && v !in G.nodes {
      return MissingVertex;
    }
    if |voi| < 2 {
      var tree := new Graph();
      if |voi| == 1 {
        tree.AddNode(voi[0]);
        SingleNodeTree(voi[0]);
        assert voi == [voi[0]];
      }
      ConnReflAll(G.weight.Keys);
      return Found(tree);
    }
    ghost var T := ToSet(voi);
    TwoOfThem(voi);
    assert voi[0] in T && voi[1] in T;
    var reachable, paths, heap := LoadPaths(G, voi, dijkstra);
    if !reachable {
      return Unreachable;
    }
    ghost var D := Distances(G, paths);
    DistancesPrice(G, T, paths, heap);
    NothingJoined(G, T, paths, heap);
    var mst := JoinByDistance(T, heap, D);
    var subgraph := UnitePaths(G, T, mst.edges, paths);
    UnitedConnected(G, T, paths, mst.edges, subgraph.nodes, subgraph.edges);
    UnitedWithin(G, T, paths, mst.edges, subgraph.nodes, subgraph.edges);
    var tree := MakePrimMst(subgraph);
    TrimTree(tree, voi);
    BestOf(G, T, D, mst.edges, subgraph.edges, tree.edges);
    TreeInside(G, tree.nodes, tree.edges, voi[0], voi[1]);
    return Found(tree);
  }

  /** No subgraph H of G that joins the terminals weighs less than half of E. */
  ghost predicate WithinTwiceBest(G: Topo, T: set<Node>, E: set<Edge>) {
    forall H :: H <= G.weight.Keys && Connected(T, H) ==> Weight(E, G.weight) <= 2 * Weight(H, G.weight)
  }

  lemma TreeInside(G: Topo, nodes: set<Node>, E: set<Edge>, u: Node, v: Node)
    requires IsTree(nodes, E) && E <= G.weight.Keys && Within(G.nodes, G.weight.Keys)
    requires u in nodes && v in nodes && u != v
    ensures nodes <= G.nodes
  {
    forall x | x in nodes ensures x in G.nodes {
      HasNeighbor(nodes, E, x, if x == u then v else u);
      var y :| y in Neighbors(nodes, E, x);
      WithinEnds(G.nodes, G.weight.Keys, x, y);
    }
  }

  lemma ConnReflAll(E: set<Edge>)
    ensures forall x :: Conn(E, x, x)
  {
    forall x ensures Conn(E, x, x) { ConnRefl(E, x); }
  }

  lemma TwoOfThem(voi: seq<Node>)
    requires |voi| > 1 && Distinct(voi)
    ensures |ToSet(voi)| > 1
  {
    assert {voi[0], voi[1]} <= ToSet(voi);
    Smaller({voi[0], voi[1]}, ToSet(voi));
  }

  lemma NothingJoined(G: Topo, T: set<Node>, paths: map<Edge, seq<Node>>, heap: Heap)
    requires Loaded(G, T, paths, heap)
    ensures Pending(Distances(G, paths), heap, {})
  {
  }

  lemma UnitedWithin(G: Topo, T: set<Node>, paths: map<Edge, seq<Node>>, M: set<Edge>, nodes: set<Node>, E: set<Edge>)
    requires M <= paths.Keys && Unites(G, T, paths, M, nodes, E) && Within(G.nodes, G.weight.Keys)
    ensures Within(nodes, E)
  {
    forall e | e in E ensures EdgeOf(nodes, e) {
      var a, b := EdgeEnds(G.nodes, G.weight.Keys, e);
      assert a in e && b in e;
      EdgeOfPair(nodes, a, b);
    }
  }

  /** Union, traversal and trimming never add weight to the greedy choice. */
  lemma BestOf(G: Topo, T: set<Node>, D: map<Edge, nat>, M: set<Edge>, united: set<Edge>, E: set<Edge>)
    requires PricesPairs(T, D, G.weight) && Promising(T, D, M) && Within(G.nodes, G.weight.Keys)
    requires Weight(united, G.weight) <= Weight(M, D) && E <= united
    ensures WithinTwiceBest(G, T, E)
  {
    WeightMono(E, united, G.weight);
    forall H | H <= G.weight.Keys && Connected(T, H)
      ensures Weight(E, G.weight) <= 2 * Weight(H, G.weight)
    {
      forall e | e in H ensures exists x, y :: e == Pair(x, y) {
        var a, b := EdgeEnds(G.nodes, G.weight.Keys, e);
      }
      GreedyWithinTwice(T, D, G.weight, M, H);
    }
  }
}
