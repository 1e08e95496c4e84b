/** Undirected graphs as the topology and the tree search use them: an edge is an unordered pair of
    nodes, because networkx keeps one attribute dictionary per edge and reads it from either end. */
module Graphs {

  datatype Node = Node(name: string)

  type Edge = set<Node>

  function Pair(u: Node, v: Node): (e: Edge)
    ensures e == {v, u}
  {
    {u, v}
  }

  lemma PairInjective(a: Node, b: Node, c: Node, d: Node)
    requires Pair(a, b) == Pair(c, d)
    ensures (a == c && b == d) || (a == d && b == c)
  {
    assert a in Pair(c, d) && b in Pair(c, d) && c in Pair(a, b) && d in Pair(a, b);
  }

  // ----- Walks and connectivity -----

  ghost predicate IsWalk(E: set<Edge>, p: seq<Node>) {
    |p| > 0 && forall i :: 0 <= i < |p| - 1 ==> Pair(p[i], p[i + 1]) in E
  }

  ghost predicate WalkFrom(E: set<Edge>, p: seq<Node>, x: Node, y: Node) {
    IsWalk(E, p) && p[0] == x && p[|p| - 1] == y
  }

  ghost predicate Conn(E: set<Edge>, x: Node, y: Node) {
    exists p :: WalkFrom(E, p, x, y)
  }

  lemma ConnRefl(E: set<Edge>, x: Node)
    ensures Conn(E, x, x)
  {
    assert WalkFrom(E, [x], x, x);
  }

  lemma ConnStep(E: set<Edge>, x: Node, y: Node)
    requires Pair(x, y) in E
    ensures Conn(E, x, y)
  {
    assert WalkFrom(E, [x, y], x, y);
  }

  lemma ConnTrans(E: set<Edge>, x: Node, y: Node, z: Node)
    requires Conn(E, x, y) && Conn(E, y, z)
    ensures Conn(E, x, z)
  {
    var p :| WalkFrom(E, p, x, y);
    var q :| WalkFrom(E, q, y, z);
    assert WalkFrom(E, p + q[1..], x, z);
  }

  lemma {:induction false} ConnSym(E: set<Edge>, x: Node, y: Node)
    requires Conn(E, x, y)
    ensures Conn(E, y, x)
  {
    var p :| WalkFrom(E, p, x, y);
    WalkReverse(E, p, x, y);
  }

  lemma {:induction false} WalkReverse(E: set<Edge>, p: seq<Node>, x: Node, y: Node)
    requires WalkFrom(E, p, x, y)
    ensures Conn(E, y, x)
    decreases |p|
  {
    if |p| == 1 {
      ConnRefl(E, x);
    } else {
      WalkReverse(E, p[1..], p[1], y);
      ConnStep(E, p[1], p[0]);
      ConnTrans(E, y, p[1], x);
    }
  }

  lemma ConnMono(E: set<Edge>, F: set<Edge>, x: Node, y: Node)
    requires E <= F && Conn(E, x, y)
    ensures Conn(F, x, y)
  {
    var p :| WalkFrom(E, p, x, y);
    assert WalkFrom(F, p, x, y);
  }

  /** What one more edge can connect: the only way to use it is to cross it. */
  lemma {:induction false} ConnAdd(E: set<Edge>, a: Node, b: Node, x: Node, y: Node)
    requires Conn(E + {Pair(a, b)}, x, y)
    ensures || Conn(E, x, y)
            || (Conn(E, x, a) && Conn(E, b, y))
            || (Conn(E, x, b) && Conn(E, a, y))
  {
    var p :| WalkFrom(E + {Pair(a, b)}, p, x, y);
    WalkAdd(E, a, b, p, x, y);
  }

  lemma {:induction false} WalkAdd(E: set<Edge>, a: Node, b: Node, p: seq<Node>, x: Node, y: Node)
    requires WalkFrom(E + {Pair(a, b)}, p, x, y)
    ensures || Conn(E, x, y)
            || (Conn(E, x, a) && Conn(E, b, y))
            || (Conn(E, x, b) && Conn(E, a, y))
    decreases |p|
  {
    ConnRefl(E, x); ConnRefl(E, y);
    if |p| > 1 {
      var z := p[|p| - 2];
      WalkAdd(E, a, b, p[..|p| - 1], x, z);
      assert Pair(p[|p| - 2], p[|p| - 1]) in E + {Pair(a, b)};
      if Pair(z, y) in E {
        ConnStep(E, z, y);
        if Conn(E, x, z) {
          ConnTrans(E, x, z, y);
        } else if Conn(E, x, a) && Conn(E, b, z) {
          ConnTrans(E, b, z, y);
        } else {
          ConnTrans(E, a, z, y);
        }
      } else {
        PairInjective(z, y, a, b);
      }
    }
  }

  /** A node set that no edge leaves holds everything reachable from its members. */
  lemma {:induction false} ConnClosed(E: set<Edge>, S: set<Node>, x: Node, y: Node)
    requires forall u, v :: u in S && Pair(u, v) in E ==> v in S
    requires x in S && Conn(E, x, y)
    ensures y in S
  {
    var p :| WalkFrom(E, p, x, y);
    var i := 0;
    while i < |p| - 1
      invariant 0 <= i < |p| && p[i] in S
    {
      assert Pair(p[i], p[i + 1]) in E;
      i := i + 1;
    }
  }

  // ----- Trees -----

  ghost predicate EdgeOf(nodes: set<Node>, e: Edge) {
    exists u, v :: u in nodes && v in nodes && u != v && e == Pair(u, v)
  }

  ghost predicate Within(nodes: set<Node>, E: set<Edge>) {
    forall e {:trigger EdgeOf(nodes, e)} :: e in E ==> EdgeOf(nodes, e)
  }

  lemma EdgeEnds(nodes: set<Node>, E: set<Edge>, e: Edge) returns (u: Node, v: Node)
    requires Within(nodes, E) && e in E
    ensures u in nodes && v in nodes && u != v && e == Pair(u, v)
  {
    assert EdgeOf(nodes, e);
    u, v :| u in nodes && v in nodes && u != v && e == Pair(u, v);
  }

  lemma EdgeOfPair(nodes: set<Node>, u: Node, v: Node)
    requires u in nodes && v in nodes && u != v
    ensures EdgeOf(nodes, Pair(u, v))
  {
  }

  ghost predicate Connected(nodes: set<Node>, E: set<Edge>) {
    forall x, y {:trigger Conn(E, x, y)} :: x in nodes && y in nodes ==> Conn(E, x, y)
  }

  /** Every edge is a bridge: no edge lies on a cycle. */
  ghost predicate Acyclic(E: set<Edge>) {
    forall u, v {:trigger Conn(E - {Pair(u, v)}, u, v)} :: Pair(u, v) in E ==> !Conn(E - {Pair(u, v)}, u, v)
  }

  ghost predicate IsTree(nodes: set<Node>, E: set<Edge>) {
    nodes != {} && Within(nodes, E) && Connected(nodes, E) && Acyclic(E)
  }

  function Neighbors(nodes: set<Node>, E: set<Edge>, x: Node): set<Node> {
    set y | y in nodes && Pair(x, y) in E
  }

  lemma WithinEnds(nodes: set<Node>, E: set<Edge>, x: Node, y: Node)
    requires Within(nodes, E) && Pair(x, y) in E
    ensures x in nodes && y in nodes && x != y
  {
    var u, v := EdgeEnds(nodes, E, Pair(x, y));
    PairInjective(x, y, u, v);
  }

  lemma AcyclicSubset(E: set<Edge>, F: set<Edge>)
    requires E <= F && Acyclic(F)
    ensures Acyclic(E)
  {
    forall u, v | Pair(u, v) in E
      ensures !Conn(E - {Pair(u, v)}, u, v)
    {
      if Conn(E - {Pair(u, v)}, u, v) {
        ConnMono(E - {Pair(u, v)}, F - {Pair(u, v)}, u, v);
      }
    }
  }

  /** A node with no edge is connected to nothing but itself. */
  lemma Isolated(E: set<Edge>, x: Node, y: Node)
    requires forall z :: Pair(x, z) !in E
    requires Conn(E, x, y)
    ensures x == y
  {
    ConnClosed(E, {x}, x, y);
  }

  /** Hanging a new node on a tree gives a tree. */
  lemma TreeAddLeaf(nodes: set<Node>, E: set<Edge>, u: Node, v: Node)
    requires IsTree(nodes, E) && u in nodes && v !in nodes
    ensures IsTree(nodes + {v}, E + {Pair(u, v)})
    ensures Pair(u, v) !in E
  {
    var N, F := nodes + {v}, E + {Pair(u, v)};
    forall z ensures Pair(v, z) !in E {
      if Pair(v, z) in E { WithinEnds(nodes, E, v, z); }
    }
    assert Pair(v, u) !in E;
    forall e | e in F
      ensures EdgeOf(N, e)
    {
      if e in E {
        var a, b := EdgeEnds(nodes, E, e);
        EdgeOfPair(N, a, b);
      } else {
        EdgeOfPair(N, u, v);
      }
    }
    forall x, y | x in N && y in N
      ensures Conn(F, x, y)
    {
      LeafReaches(nodes, E, u, v, x);
      LeafReaches(nodes, E, u, v, y);
      ConnSym(F, x, u);
      ConnSym(F, y, u);
      ConnTrans(F, x, u, y);
    }
    forall a, b | Pair(a, b) in F
      ensures !Conn(F - {Pair(a, b)}, a, b)
    {
      LeafBridge(nodes, E, u, v, a, b);
    }
  }

  lemma LeafReaches(nodes: set<Node>, E: set<Edge>, u: Node, v: Node, x: Node)
    requires Connected(nodes, E) && u in nodes && x in nodes + {v}
    ensures Conn(E + {Pair(u, v)}, u, x) && Conn(E + {Pair(u, v)}, x, u)
  {
    var F := E + {Pair(u, v)};
    if x in nodes {
      ConnMono(E, F, u, x);
    } else {
      ConnStep(F, u, v);
    }
    ConnSym(F, u, x);
  }

  lemma LeafBridge(nodes: set<Node>, E: set<Edge>, u: Node, v: Node, a: Node, b: Node)
    requires Acyclic(E) && Within(nodes, E) && u in nodes && v !in nodes
    requires forall z :: Pair(v, z) !in E
    requires Pair(a, b) in E + {Pair(u, v)}
    ensures !Conn(E + {Pair(u, v)} - {Pair(a, b)}, a, b)
  {
    var F := E + {Pair(u, v)};
    if Conn(F - {Pair(a, b)}, a, b) {
      if Pair(a, b) == Pair(u, v) {
        PairInjective(a, b, u, v);
        assert Pair(v, u) !in E;
        assert F - {Pair(a, b)} == E;
        if a == v { Isolated(E, v, b); } else { ConnSym(E, a, b); Isolated(E, v, a); }
        assert false;
      } else {
        var G := E - {Pair(a, b)};
        assert F - {Pair(a, b)} == G + {Pair(u, v)};
        assert a != v && b != v by {
          assert Pair(a, b) in E && Pair(b, a) == Pair(a, b);
        }
        ConnAdd(G, u, v, a, b);
        if Conn(G, v, b) { Isolated(G, v, b); }
        if Conn(G, a, v) { ConnSym(G, a, v); Isolated(G, v, a); }
        assert false;
      }
    }
  }

  /** Removing a node of degree at most one from a tree that has another node leaves a tree. */
  lemma TreeRemoveLeaf(nodes: set<Node>, E: set<Edge>, x: Node, u: Node, F: set<Edge>)
    requires IsTree(nodes, E) && x in nodes && u in nodes && u != x
    requires Neighbors(nodes, E, x) <= {u}
    requires forall e :: e in F <==> e in E && x !in e
    ensures IsTree(nodes - {x}, F)
  {
    forall e | e in E && e !in F
      ensures e == Pair(x, u)
    {
      var a, b := EdgeEnds(nodes, E, e);
      var y := if a == x then b else a;
      assert e == Pair(x, y);
      assert y in Neighbors(nodes, E, x);
    }
    assert E <= F + {Pair(x, u)};
    forall z ensures Pair(x, z) !in F { assert x in Pair(x, z); }
    forall e | e in F
      ensures EdgeOf(nodes - {x}, e)
    {
      var a, b := EdgeEnds(nodes, E, e);
      assert a in e && b in e;
      EdgeOfPair(nodes - {x}, a, b);
    }
    forall y, z | y in nodes - {x} && z in nodes - {x}
      ensures Conn(F, y, z)
    {
      ConnMono(E, F + {Pair(x, u)}, y, z);
      ConnAdd(F, x, u, y, z);
      if Conn(F, y, x) { ConnSym(F, y, x); Isolated(F, x, y); }
      if Conn(F, x, z) { Isolated(F, x, z); }
    }
    AcyclicSubset(F, E);
    assert u in nodes - {x};
  }

  /** A tree has one edge less than it has nodes. */
  lemma TreeEdgeCount(nodes: set<Node>, E: set<Edge>)
    requires IsTree(nodes, E)
    ensures |E| + 1 == |nodes|
  {
    var r :| r in nodes;
    var S, U: set<Edge> := {r}, {};
    ConnRefl(U, r);
    while exists u, v :: u in S && v !in S && Pair(u, v) in E
      invariant r in S && S <= nodes && U <= E && |U| + 1 == |S|
      invariant Within(S, U)
      invariant forall x :: x in S ==> Conn(U, r, x)
      decreases nodes - S
    {
      var u, v :| u in S && v !in S && Pair(u, v) in E;
      WithinEnds(nodes, E, u, v);
      if Pair(u, v) in U { WithinEnds(S, U, u, v); }
      var U' := U + {Pair(u, v)};
      forall x | x in S + {v} ensures Conn(U', r, x) {
        if x in S {
          ConnMono(U, U', r, x);
        } else {
          ConnMono(U, U', r, u);
          ConnStep(U', u, v);
          ConnTrans(U', r, u, v);
        }
      }
      assert Within(S + {v}, U') by {
        forall e | e in U'
          ensures EdgeOf(S + {v}, e)
        {
          if e in U {
            var a, b := EdgeEnds(S, U, e);
            EdgeOfPair(S + {v}, a, b);
          } else {
            EdgeOfPair(S + {v}, u, v);
          }
        }
      }
      S, U := S + {v}, U';
    }
    forall x | x in nodes ensures x in S { ConnClosed(E, S, r, x); }
    assert S == nodes;
    forall e | e in E ensures e in U {
      var a, b := EdgeEnds(nodes, E, e);
      if e !in U {
        ConnSym(U, r, a);
        ConnTrans(U, a, r, b);
        ConnMono(U, E - {e}, a, b);
        assert false;
      }
    }
    assert U == E;
  }

  // ----- Weights -----

  function Cost(w: map<Edge, nat>, e: Edge): nat {
    if e in w then w[e] else 0
  }

  ghost function Weight(E: set<Edge>, w: map<Edge, nat>): nat {
    if E == {} then 0 else
      var e :| e in E;
      Cost(w, e) + Weight(E - {e}, w)
  }

  lemma {:induction false} WeightTake(E: set<Edge>, w: map<Edge, nat>, e: Edge)
    requires e in E
    ensures Weight(E, w) == Cost(w, e) + Weight(E - {e}, w)
    decreases E
  {
    var d :| d in E && Weight(E, w) == Cost(w, d) + Weight(E - {d}, w);
    if d != e {
      WeightTake(E - {d}, w, e);
      WeightTake(E - {e}, w, d);
      assert E - {d} - {e} == E - {e} - {d};
    }
  }

  lemma WeightAdd(E: set<Edge>, w: map<Edge, nat>, e: Edge)
    ensures Weight(E + {e}, w) == Weight(E, w) + if e in E then 0 else Cost(w, e)
  {
    if e in E {
      assert E + {e} == E;
    } else {
      WeightTake(E + {e}, w, e);
      assert E + {e} - {e} == E;
    }
  }

  lemma {:induction false} WeightMono(E: set<Edge>, F: set<Edge>, w: map<Edge, nat>)
    requires E <= F
    ensures Weight(E, w) <= Weight(F, w)
    decreases F
  {
    if e :| e in F && e !in E {
      WeightTake(F, w, e);
      WeightMono(E, F - {e}, w);
    } else {
      assert E == F;
    }
  }

  lemma {:induction false} WeightUnion(E: set<Edge>, F: set<Edge>, w: map<Edge, nat>)
    ensures Weight(E + F, w) <= Weight(E, w) + Weight(F, w)
    decreases F
  {
    if e :| e in F {
      WeightUnion(E, F - {e}, w);
      WeightAdd(E + (F - {e}), w, e);
      assert E + (F - {e}) + {e} == E + F;
      WeightTake(F, w, e);
    } else {
      assert E + F == E;
    }
  }

  function Length(p: seq<Node>, w: map<Edge, nat>): nat {
    if |p| <= 1 then 0 else Length(p[..|p| - 1], w) + Cost(w, Pair(p[|p| - 2], p[|p| - 1]))
  }

  lemma {:induction false} LengthConcat(p: seq<Node>, q: seq<Node>, w: map<Edge, nat>)
    requires |p| > 0 && |q| > 0 && p[|p| - 1] == q[0]
    ensures Length(p + q[1..], w) == Length(p, w) + Length(q, w)
    decreases |q|
  {
    if |q| == 1 {
      assert p + q[1..] == p;
    } else {
      var q', r := q[..|q| - 1], p + q[1..];
      LengthConcat(p, q', w);
      assert r[..|r| - 1] == p + q'[1..];
      assert r[|r| - 2] == q[|q| - 2] && r[|r| - 1] == q[|q| - 1];
    }
  }

  lemma LengthPair(x: Node, y: Node, w: map<Edge, nat>)
    ensures Length([x, y], w) == Cost(w, Pair(x, y))
  {
    assert [x, y][..1] == [x];
  }

  /** The edges a walk crosses. */
  function WalkEdges(p: seq<Node>): set<Edge> {
    if |p| <= 1 then {} else WalkEdges(p[..|p| - 1]) + {Pair(p[|p| - 2], p[|p| - 1])}
  }

  lemma {:induction false} WalkEdgesStep(p: seq<Node>, i: nat)
    requires i < |p| - 1
    ensures Pair(p[i], p[i + 1]) in WalkEdges(p)
  {
    if i < |p| - 2 {
      WalkEdgesStep(p[..|p| - 1], i);
    }
  }

  lemma WalkWithin(p: seq<Node>)
    requires |p| > 0
    ensures WalkFrom(WalkEdges(p), p, p[0], p[|p| - 1])
  {
    forall i | 0 <= i < |p| - 1 ensures Pair(p[i], p[i + 1]) in WalkEdges(p) {
      WalkEdgesStep(p, i);
    }
  }

  lemma {:induction false} WalkEdgesSubset(E: set<Edge>, p: seq<Node>)
    requires IsWalk(E, p)
    ensures WalkEdges(p) <= E
    decreases |p|
  {
    if |p| > 1 {
      assert Pair(p[|p| - 2], p[|p| - 1]) in E;
      WalkEdgesSubset(E, p[..|p| - 1]);
    }
  }

  lemma {:induction false} WalkEdgesWeight(p: seq<Node>, w: map<Edge, nat>)
    ensures Weight(WalkEdges(p), w) <= Length(p, w)
    decreases |p|
  {
    if |p| > 1 {
      WalkEdgesWeight(p[..|p| - 1], w);
      WeightAdd(WalkEdges(p[..|p| - 1]), w, Pair(p[|p| - 2], p[|p| - 1]));
    }
  }

  lemma SubWalk(E: set<Edge>, p: seq<Node>, i: nat, j: nat)
    requires IsWalk(E, p) && i < j <= |p|
    ensures WalkFrom(E, p[i..j], p[i], p[j - 1])
  {
    var q := p[i..j];
    forall k | 0 <= k < |q| - 1 ensures Pair(q[k], q[k + 1]) in E {
      assert Pair(p[i + k], p[i + k + 1]) in E;
    }
  }

  lemma {:induction false} WalkBack(E: set<Edge>, p: seq<Node>, w: map<Edge, nat>) returns (q: seq<Node>)
    requires IsWalk(E, p)
    ensures WalkFrom(E, q, p[|p| - 1], p[0]) && Length(q, w) == Length(p, w)
    decreases |p|
  {
    if |p| == 1 {
      q := p;
    } else {
      var z, y := p[|p| - 2], p[|p| - 1];
      assert Pair(z, y) in E;
      var q' := WalkBack(E, p[..|p| - 1], w);
      LengthPair(y, z, w);
      LengthConcat([y, z], q', w);
      q := [y, z] + q'[1..];
      assert q == [y] + q';
    }
  }

  /** A networkx graph under construction: mutable sets of nodes and of edges. */
  class Graph {
    var nodes: set<Node>
    var edges: set<Edge>

    constructor ()
      ensures nodes == {} && edges == {}
    {
      nodes, edges := {}, {};
    }

    method AddNode(x: Node)
      modifies this
      ensures nodes == old(nodes) + {x} && edges == old(edges)
    {
      nodes := nodes + {x};
    }

    /** Adding an edge adds its ends. */
    method AddEdge(x: Node, y: Node)
      modifies this
      ensures nodes == old(nodes) + {x, y} && edges == old(edges) + {Pair(x, y)}
    {
      nodes := nodes + {x, y};
      edges := edges + {Pair(x, y)};
    }

    /** Removing a node removes its edges. */
    method RemoveNode(x: Node)
      modifies this
      ensures nodes == old(nodes) - {x}
      ensures forall e :: e in edges <==> e in old(edges) && x !in e
    {
      nodes := nodes - {x};
      edges := set e | e in edges && x !in e;
    }

    /** The path query: search outwards from x until no edge leaves what has been reached. */
    method HasPath(x: Node, y: Node) returns (found: bool)
      requires Within(nodes, edges)
      ensures found <==> Conn(edges, x, y)
    {
      var reached := {x};
      ConnRefl(edges, x);
      while exists e :: e in edges && Leaves(e, reached)
        invariant x in reached && reached <= nodes + {x}
        invariant forall z :: z in reached ==> Conn(edges, x, z)
        decreases nodes + {x} - reached
      {
        var e :| e in edges && Leaves(e, reached);
        ghost var u, v := LeavingEnds(nodes, edges, e, reached);
        ConnStep(edges, u, v);
        ConnTrans(edges, x, u, v);
        assert e == {u, v};
        reached := reached + e;
      }
      found := y in reached;
      if Conn(edges, x, y) {
        forall u, v | u in reached && Pair(u, v) in edges ensures v in reached {
          assert !Leaves(Pair(u, v), reached) && u in Pair(u, v) * reached;
        }
        ConnClosed(edges, reached, x, y);
      }
    }
  }

  predicate Leaves(e: Edge, S: set<Node>) {
    e * S != {} && !(e <= S)
  }

  lemma LeavingEnds(nodes: set<Node>, E: set<Edge>, e: Edge, S: set<Node>) returns (u: Node, v: Node)
    requires Within(nodes, E) && e in E && Leaves(e, S)
    ensures u in S && v !in S && v in nodes && e == Pair(u, v)
  {
    var a, b := EdgeEnds(nodes, E, e);
    u, v := if a in S then a else b, if a in S then b else a;
    assert u in e * S || v in e * S by { var z :| z in e * S; }
  }
}
