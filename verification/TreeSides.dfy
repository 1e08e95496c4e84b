/** How a tree falls apart around a node: what lies behind each neighbour, each node behind exactly one. */
module TreeSides {
  import opened Basics
  import opened Graphs

  ghost function Reach(nodes: set<Node>, E: set<Edge>, u: Node): set<Node> {
    set x | x in nodes && Conn(E, u, x)
  }

  /** What u still reaches when its edge to p is cut. */
  ghost function Side(nodes: set<Node>, E: set<Edge>, u: Node, p: Node): set<Node> {
    Reach(nodes, E - {Pair(u, p)}, u)
  }

  lemma SideEnds(nodes: set<Node>, E: set<Edge>, u: Node, p: Node)
    requires IsTree(nodes, E) && Pair(u, p) in E
    ensures u in Side(nodes, E, u, p) && p !in Side(nodes, E, u, p)
  {
    WithinEnds(nodes, E, u, p);
    ConnRefl(E - {Pair(u, p)}, u);
  }

  lemma CutKeeps(E: set<Edge>, u: Node, p: Node, v: Node)
    requires Pair(u, v) in E && v != p
    ensures Pair(u, v) in E - {Pair(u, p)}
  {
    if Pair(u, v) == Pair(u, p) { PairInjective(u, v, u, p); }
  }

  /** Behind another neighbour, the cut to p is never crossed. */
  lemma SideAvoids(nodes: set<Node>, E: set<Edge>, u: Node, p: Node, v: Node, x: Node)
    requires IsTree(nodes, E) && Pair(u, p) in E && Pair(u, v) in E && v != p && x in Side(nodes, E, v, u)
    ensures x in Side(nodes, E, u, p)
  {
    var F, G := E - {Pair(v, u)} - {Pair(u, p)}, E - {Pair(u, p)};
    CutKeeps(E, u, p, v);
    ConnStep(G, u, v);
    assert Pair(v, u) == Pair(u, v);
    assert E - {Pair(v, u)} <= F + {Pair(u, p)};
    ConnMono(E - {Pair(v, u)}, F + {Pair(u, p)}, v, x);
    ConnAdd(F, u, p, v, x);
    if Conn(F, v, u) {
      ConnMono(F, E - {Pair(v, u)}, v, u);
      assert false;
    }
    if Conn(F, v, p) {
      ConnMono(F, G, v, p);
      ConnTrans(G, u, v, p);
      assert false;
    }
    ConnMono(F, G, v, x);
    ConnTrans(G, u, v, x);
  }

  lemma SidesDisjoint(nodes: set<Node>, E: set<Edge>, u: Node, v: Node, v': Node)
    requires IsTree(nodes, E) && Pair(u, v) in E && Pair(u, v') in E && v != v'
    ensures Side(nodes, E, v, u) !! Side(nodes, E, v', u)
  {
    forall x | x in Side(nodes, E, v, u) && x in Side(nodes, E, v', u) ensures false {
      var G := E - {Pair(u, v')};
      SideAvoids(nodes, E, u, v', v, x);
      assert Pair(v', u) == Pair(u, v');
      ConnSym(G, v', x);
      ConnTrans(G, u, x, v');
      assert false;
    }
  }

  /** Whatever u reaches lies behind one of its neighbours. */
  lemma {:induction false} BehindSome(F: set<Edge>, walk: seq<Node>, u: Node, x: Node) returns (v: Node)
    requires WalkFrom(F, walk, u, x) && u != x
    ensures Pair(u, v) in F && Conn(F - {Pair(u, v)}, v, x)
    decreases |walk|
  {
    var y := walk[|walk| - 2];
    assert Pair(walk[|walk| - 2], walk[|walk| - 1]) in F;
    if y == u {
      v := x;
      ConnRefl(F - {Pair(u, v)}, x);
    } else {
      v := BehindSome(F, walk[..|walk| - 1], u, y);
      if Pair(y, x) == Pair(u, v) { PairInjective(y, x, u, v); }
      ConnStep(F - {Pair(u, v)}, y, x);
      ConnTrans(F - {Pair(u, v)}, v, y, x);
    }
  }

  /** What lies behind the listed neighbours of u. */
  ghost function Behind(nodes: set<Node>, E: set<Edge>, u: Node, vs: seq<Node>): set<Node> {
    if vs == [] then {} else Behind(nodes, E, u, vs[..|vs| - 1]) + Side(nodes, E, vs[|vs| - 1], u)
  }

  lemma {:induction false} InBehind(nodes: set<Node>, E: set<Edge>, u: Node, vs: seq<Node>, x: Node)
    ensures x in Behind(nodes, E, u, vs) <==> exists v :: v in vs && x in Side(nodes, E, v, u)
  {
    if vs != [] {
      InBehind(nodes, E, u, vs[..|vs| - 1], x);
      assert vs == vs[..|vs| - 1] + [vs[|vs| - 1]];
    }
  }

  /** Every node the list adds is new. */
  lemma BehindNew(nodes: set<Node>, E: set<Edge>, u: Node, vs: seq<Node>)
    requires IsTree(nodes, E) && Distinct(vs) && vs != [] && forall v :: v in vs ==> Pair(u, v) in E
    ensures Behind(nodes, E, u, vs[..|vs| - 1]) !! Side(nodes, E, vs[|vs| - 1], u)
  {
    var front, last := vs[..|vs| - 1], vs[|vs| - 1];
    forall x | x in Side(nodes, E, last, u) && x in Behind(nodes, E, u, front) ensures false {
      InBehind(nodes, E, u, front, x);
      var v :| v in front && x in Side(nodes, E, v, u);
      SidesDisjoint(nodes, E, u, last, v);
      assert false;
    }
  }

  /** The neighbours of u other than p. */
  ghost predicate NeighborsBut(nodes: set<Node>, E: set<Edge>, u: Node, p: Node, vs: seq<Node>) {
    Distinct(vs) && forall v :: v in vs <==> Pair(u, v) in E && v != p
  }

  /** Cutting the edge to p leaves u and what lies behind its other neighbours. */
  lemma SideSplits(nodes: set<Node>, E: set<Edge>, u: Node, p: Node, vs: seq<Node>)
    requires IsTree(nodes, E) && Pair(u, p) in E && NeighborsBut(nodes, E, u, p, vs)
    ensures u !in Behind(nodes, E, u, vs) && Side(nodes, E, u, p) == {u} + Behind(nodes, E, u, vs)
  {
    SideEnds(nodes, E, u, p);
    forall x ensures x in Side(nodes, E, u, p) <==> x in {u} + Behind(nodes, E, u, vs) {
      InBehind(nodes, E, u, vs, x);
      if x in Behind(nodes, E, u, vs) {
        var v :| v in vs && x in Side(nodes, E, v, u);
        SideAvoids(nodes, E, u, p, v, x);
      } else if x in Side(nodes, E, u, p) && x != u {
        var v := BehindNeighbor(nodes, E, E - {Pair(u, p)}, u, x);
      }
    }
    NotBehind(nodes, E, u, vs);
  }

  lemma BehindNeighbor(nodes: set<Node>, E: set<Edge>, F: set<Edge>, u: Node, x: Node) returns (v: Node)
    requires F <= E && x in nodes && x != u && Conn(F, u, x)
    ensures Pair(u, v) in F && x in Side(nodes, E, v, u)
  {
    var walk :| WalkFrom(F, walk, u, x);
    v := BehindSome(F, walk, u, x);
    assert Pair(v, u) == Pair(u, v);
    ConnMono(F - {Pair(u, v)}, E - {Pair(v, u)}, v, x);
  }

  lemma NotBehind(nodes: set<Node>, E: set<Edge>, u: Node, vs: seq<Node>)
    requires IsTree(nodes, E) && forall v :: v in vs ==> Pair(u, v) in E
    ensures u !in Behind(nodes, E, u, vs)
  {
    InBehind(nodes, E, u, vs, u);
  }

  /** The whole tree is u and what lies behind its neighbours. */
  lemma TreeSplits(nodes: set<Node>, E: set<Edge>, u: Node, vs: seq<Node>)
    requires IsTree(nodes, E) && u in nodes && forall v :: v in vs <==> Pair(u, v) in E
    ensures u !in Behind(nodes, E, u, vs) && nodes == {u} + Behind(nodes, E, u, vs)
  {
    forall x ensures x in nodes <==> x in {u} + Behind(nodes, E, u, vs) {
      InBehind(nodes, E, u, vs, x);
      if x in nodes && x != u {
        var v := BehindNeighbor(nodes, E, E, u, x);
        assert v in vs;
      }
    }
    NotBehind(nodes, E, u, vs);
  }

  // ----- Edges -----

  /** The edges with both ends in a set of nodes. */
  function Inner(E: set<Edge>, S: set<Node>): set<Edge> {
    set e | e in E && e <= S
  }

  /** The only edge that leads out of a side is the one that was cut. */
  lemma OnlyBridge(nodes: set<Node>, E: set<Edge>, v: Node, u: Node, a: Node, b: Node)
    requires a in nodes && Pair(a, b) in E && b in Side(nodes, E, v, u) && a !in Side(nodes, E, v, u)
    ensures Pair(a, b) == Pair(v, u)
  {
    if Pair(a, b) != Pair(v, u) {
      assert Pair(b, a) == Pair(a, b);
      ConnStep(E - {Pair(v, u)}, b, a);
      ConnTrans(E - {Pair(v, u)}, v, b, a);
    }
  }

  /** One more neighbour brings the edge to it and the edges behind it. */
  lemma InnerGrows(nodes: set<Node>, E: set<Edge>, u: Node, B: set<Node>, v: Node, e: Edge)
    requires IsTree(nodes, E) && Pair(u, v) in E && u !in B && v !in B && B !! Side(nodes, E, v, u)
    ensures e in Inner(E, {u} + (B + Side(nodes, E, v, u)))
       <==> e in Inner(E, {u} + B) || e == Pair(u, v) || e in Inner(E, Side(nodes, E, v, u))
  {
    var S := Side(nodes, E, v, u);
    assert Pair(v, u) == Pair(u, v);
    SideEnds(nodes, E, v, u);
    if e in Inner(E, {u} + (B + S)) && e !in Inner(E, {u} + B) && e !in Inner(E, S) {
      var a, b := EdgeEnds(nodes, E, e);
      if b in S { OnlyBridge(nodes, E, v, u, a, b); } else {
        assert Pair(b, a) == Pair(a, b);
        OnlyBridge(nodes, E, v, u, b, a);
      }
    }
  }

  lemma NoLoops(nodes: set<Node>, E: set<Edge>, S: set<Node>, T: set<Node>)
    requires IsTree(nodes, E) && S !! T
    ensures Inner(E, S) !! Inner(E, T)
  {
    forall e | e in Inner(E, S) && e in Inner(E, T) ensures false {
      var a, b := EdgeEnds(nodes, E, e);
      assert false;
    }
  }

  lemma AloneHasNone(nodes: set<Node>, E: set<Edge>, u: Node)
    requires IsTree(nodes, E)
    ensures Inner(E, {u}) == {}
  {
    forall e | e in Inner(E, {u}) ensures false {
      var a, b := EdgeEnds(nodes, E, e);
      assert false;
    }
  }

  lemma AddSets<T>(a: set<T>, b: set<T>)
    requires a !! b
    ensures multiset(a + b) == multiset(a) + multiset(b)
  {
  }

  /** So the edges add up, none of them twice. */
  lemma InnerAdds(nodes: set<Node>, E: set<Edge>, u: Node, B: set<Node>, v: Node)
    requires IsTree(nodes, E) && Pair(u, v) in E && u !in B && v !in B && B !! Side(nodes, E, v, u)
    ensures var S := Side(nodes, E, v, u);
            multiset(Inner(E, {u} + (B + S)))
              == multiset(Inner(E, {u} + B)) + (multiset(Inner(E, S)) + multiset{Pair(u, v)})
  {
    var S := Side(nodes, E, v, u);
    assert Pair(v, u) == Pair(u, v);
    SideEnds(nodes, E, v, u);
    WithinEnds(nodes, E, u, v);
    var before, more, bridge := Inner(E, {u} + B), Inner(E, S), {Pair(u, v)};
    forall e ensures e in Inner(E, {u} + (B + S)) <==> e in before + (more + bridge) {
      InnerGrows(nodes, E, u, B, v, e);
    }
    NoLoops(nodes, E, {u} + B, S);
    assert v in Pair(u, v) && u in Pair(u, v);
    AddSets(more, bridge);
    AddSets(before, more + bridge);
    assert Inner(E, {u} + (B + S)) == before + (more + bridge);
  }
}
