/** The mathematics behind Kou's algorithm: why taking the cheapest non-redundant terminal pairs is
    optimal, and why the cheapest way to join the terminals pairwise costs at most twice any subgraph
    that joins them. */
module MinimumTree {
  import opened Basics
  import opened Graphs

  // ----- Greedy choice -----

  /** The chosen pairs M can be completed to join all terminals T at no more than the price of any
      set F of pairs that joins them. */
  ghost predicate Promising(T: set<Node>, D: map<Edge, nat>, M: set<Edge>)
  {
    forall F :: F <= D.Keys && Connected(T, F) ==> CompletesWithin(T, D, M, F)
  }

  ghost predicate CompletesWithin(T: set<Node>, D: map<Edge, nat>, M: set<Edge>, F: set<Edge>)
  {
    exists C :: Completes(T, D, M, F, C)
  }

  ghost predicate Completes(T: set<Node>, D: map<Edge, nat>, M: set<Edge>, F: set<Edge>, C: set<Edge>)
  {
    C <= D.Keys && Connected(T, M + C) && Weight(M, D) + Weight(C, D) <= Weight(F, D)
  }

  lemma PromisingStart(T: set<Node>, D: map<Edge, nat>)
    ensures Promising(T, D, {})
  {
    forall F | F <= D.Keys && Connected(T, F)
      ensures CompletesWithin(T, D, {}, F)
    {
      assert {} + F == F;
      assert Completes(T, D, {}, F, F);
    }
  }

  /** Adding (u, v) to M makes one pair f of a completion C redundant, and f joins nodes that M does
      not join. */
  lemma {:induction false} Redundant(M: set<Edge>, C: set<Edge>, u: Node, v: Node)
    returns (f: Edge, a: Node, b: Node)
    requires forall e :: e in C ==> exists x, y :: e == Pair(x, y)
    requires !Conn(M, u, v) && Conn(M + C, u, v)
    ensures f in C && f == Pair(a, b) && !Conn(M, a, b)
    ensures forall x, y :: Conn(M + C, x, y) ==> Conn(M + {Pair(u, v)} + (C - {f}), x, y)
    decreases C
  {
    assert C != {} by { assert M + {} == M; }
    var g :| g in C;
    var c, d :| g == Pair(c, d);
    var C1 := C - {g};
    assert M + C == (M + C1) + {Pair(c, d)};
    if Conn(M + C1, u, v) {
      f, a, b := Redundant(M, C1, u, v);
      var R := M + {Pair(u, v)} + (C - {f});
      forall x, y | Conn(M + C, x, y) ensures Conn(R, x, y) {
        RerouteVia(M + C1, M + {Pair(u, v)} + (C1 - {f}), R, c, d, x, y);
      }
    } else {
      f, a, b := g, c, d;
      var R := M + {Pair(u, v)} + C1;
      assert R == M + {Pair(u, v)} + (C - {f});
      ConnAdd(M + C1, a, b, u, v);
      if Conn(M, a, b) {
        ConnMono(M, M + C1, a, b);
        ConnSym(M + C1, a, b);
        if Conn(M + C1, u, a) && Conn(M + C1, b, v) {
          ConnTrans(M + C1, u, a, b); ConnTrans(M + C1, u, b, v);
        } else {
          ConnTrans(M + C1, u, b, a); ConnTrans(M + C1, u, a, v);
        }
        assert false;
      }
      assert Conn(R, a, b) by {
        ConnStep(R, u, v);
        ConnSym(R, u, v);
        if Conn(M + C1, u, a) && Conn(M + C1, b, v) {
          ConnMono(M + C1, R, u, a); ConnSym(R, u, a);
          ConnMono(M + C1, R, b, v); ConnSym(R, b, v);
          ConnTrans(R, a, u, v); ConnTrans(R, a, v, b);
        } else {
          ConnMono(M + C1, R, u, b);
          ConnMono(M + C1, R, a, v);
          ConnTrans(R, a, v, u); ConnTrans(R, a, u, b);
        }
      }
      forall s, t | Conn(M + C1, s, t) ensures Conn(R, s, t) { ConnMono(M + C1, R, s, t); }
      forall x, y | Conn(M + C, x, y) ensures Conn(R, x, y) {
        Reroute(M + C1, R, a, b, x, y);
      }
    }
  }

  /** If R contains E and joins a and b, it replaces E with the edge (a, b). */
  lemma Reroute(E: set<Edge>, R: set<Edge>, a: Node, b: Node, x: Node, y: Node)
    requires forall s, t :: Conn(E, s, t) ==> Conn(R, s, t)
    requires Conn(R, a, b) && Conn(E + {Pair(a, b)}, x, y)
    ensures Conn(R, x, y)
  {
    ConnAdd(E, a, b, x, y);
    ConnSym(R, a, b);
    if Conn(E, x, a) && Conn(E, b, y) {
      ConnTrans(R, x, a, b); ConnTrans(R, x, b, y);
    } else if Conn(E, x, b) && Conn(E, a, y) {
      ConnTrans(R, x, b, a); ConnTrans(R, x, a, y);
    }
  }

  lemma RerouteVia(E: set<Edge>, E': set<Edge>, R: set<Edge>, a: Node, b: Node, x: Node, y: Node)
    requires forall s, t :: Conn(E, s, t) ==> Conn(E', s, t)
    requires E' <= R && Pair(a, b) in R && Conn(E + {Pair(a, b)}, x, y)
    ensures Conn(R, x, y)
  {
    forall s, t | Conn(E, s, t) ensures Conn(R, s, t) { ConnMono(E', R, s, t); }
    ConnStep(R, a, b);
    Reroute(E, R, a, b, x, y);
  }

  /** The greedy step: a cheapest pair among those not yet joined keeps M promising. */
  lemma GreedyStep(T: set<Node>, D: map<Edge, nat>, M: set<Edge>, u: Node, v: Node)
    requires Within(T, D.Keys) && Promising(T, D, M)
    requires Pair(u, v) in D && u in T && v in T && !Conn(M, u, v)
    requires forall a, b :: Pair(a, b) in D && !Conn(M, a, b) ==> D[Pair(u, v)] <= D[Pair(a, b)]
    ensures Promising(T, D, M + {Pair(u, v)})
  {
    var e := Pair(u, v);
    if e in M { ConnStep(M, u, v); }
    forall F | F <= D.Keys && Connected(T, F)
      ensures CompletesWithin(T, D, M + {e}, F)
    {
      assert CompletesWithin(T, D, M, F);
      var C :| Completes(T, D, M, F, C);
      forall d | d in C ensures exists x, y :: d == Pair(x, y) {
        var x, y := EdgeEnds(T, D.Keys, d);
      }
      var f, a, b := Redundant(M, C, u, v);
      assert Connected(T, M + {e} + (C - {f}));
      WeightAdd(M, D, e);
      WeightTake(C, D, f);
      assert Completes(T, D, M + {e}, F, C - {f});
    }
  }

  // ----- The doubled walk -----

  /** Inside any edge set H there is a closed walk from r through everything H joins to r, of at most
      twice the weight of H. */
  lemma CoveringWalk(H: set<Edge>, w: map<Edge, nat>, r: Node) returns (p: seq<Node>)
    requires forall e :: e in H ==> exists x, y :: e == Pair(x, y)
    ensures WalkFrom(H, p, r, r) && Length(p, w) <= 2 * Weight(H, w)
    ensures forall x :: Conn(H, r, x) ==> x in p
  {
    p := [r];
    var U: set<Edge> := {};
    while exists u, v :: u in p && v !in p && Pair(u, v) in H
      invariant WalkFrom(H, p, r, r) && U <= H
      invariant Length(p, w) == 2 * Weight(U, w)
      invariant forall e :: e in U ==> forall x :: x in e ==> x in p
      decreases H - U
    {
      var u, v :| u in p && v !in p && Pair(u, v) in H;
      var i :| 0 <= i < |p| && p[i] == u;
      assert v in Pair(u, v);
      WeightAdd(U, w, Pair(u, v));
      U := U + {Pair(u, v)};
      p := Detour(H, w, p, i, v);
    }
    forall x | Conn(H, r, x) ensures x in p {
      ConnClosed(H, (set y | y in p), r, x);
    }
    WeightMono(U, H, w);
  }

  /** Splicing a there-and-back detour into a walk. */
  lemma Detour(H: set<Edge>, w: map<Edge, nat>, p: seq<Node>, i: nat, v: Node) returns (q: seq<Node>)
    requires IsWalk(H, p) && i < |p| && Pair(p[i], v) in H
    ensures WalkFrom(H, q, p[0], p[|p| - 1])
    ensures Length(q, w) == Length(p, w) + 2 * Cost(w, Pair(p[i], v))
    ensures forall x :: x in q <==> x in p || x == v
  {
    q := p[..i + 1] + [v] + p[i..];
    DetourWalk(H, p, i, v);
    DetourLength(w, p, i, v);
    DetourMembers(p, i, v);
  }

  lemma DetourMembers<T>(p: seq<T>, i: nat, v: T)
    requires i < |p|
    ensures forall x :: x in p[..i + 1] + [v] + p[i..] <==> x in p || x == v
  {
    forall x | x in p ensures x in p[..i + 1] || x in p[i..] {
      var k :| 0 <= k < |p| && p[k] == x;
      if k <= i { assert p[..i + 1][k] == x; } else { assert p[i..][k - i] == x; }
    }
  }

  lemma DetourWalk(E: set<Edge>, p: seq<Node>, i: nat, v: Node)
    requires IsWalk(E, p) && i < |p| && Pair(p[i], v) in E
    ensures WalkFrom(E, p[..i + 1] + [v] + p[i..], p[0], p[|p| - 1])
  {
    var q := p[..i + 1] + [v] + p[i..];
    forall k | 0 <= k < |q| - 1 ensures Pair(q[k], q[k + 1]) in E {
      if k < i {
        assert q[k] == p[k] && q[k + 1] == p[k + 1];
      } else if k > i + 1 {
        assert q[k] == p[k - 2] && q[k + 1] == p[k - 1];
      }
    }
  }

  lemma DetourLength(w: map<Edge, nat>, p: seq<Node>, i: nat, v: Node)
    requires i < |p|
    ensures Length(p[..i + 1] + [v] + p[i..], w) == Length(p, w) + 2 * Cost(w, Pair(p[i], v))
  {
    var u, front, back := p[i], p[..i + 1], p[i..];
    assert front + back[1..] == p;
    LengthConcat(front, back, w);
    LengthPair(u, v, w);
    LengthPair(v, u, w);
    LengthConcat([u, v], [v, u], w);
    var loop := [u, v] + [v, u][1..];
    LengthConcat(front, loop, w);
    LengthConcat(front + loop[1..], back, w);
    assert front + loop[1..] + back[1..] == front + [v] + back;
  }

  /** D prices every pair of terminals at no more than the length of any walk between them. */
  ghost predicate PricesPairs(T: set<Node>, D: map<Edge, nat>, w: map<Edge, nat>) {
    && (forall a, b :: a in T && b in T && a != b ==> Pair(a, b) in D)
    && forall a, b, q :: a in T && b in T && a != b && WalkFrom(w.Keys, q, a, b) ==> Cost(D, Pair(a, b)) <= Length(q, w)
  }

  ghost predicate JoinsAlong(T: set<Node>, p: seq<Node>, F: set<Edge>)
    requires p != []
  {
    forall x :: x in p && x in T ==> Conn(F, p[0], x)
  }

  /** F joins p[0] to every terminal on the walk p, and its price and the part of p after the last
      terminal met are together covered by the length of p. */
  ghost predicate PaidAlong(T: set<Node>, D: map<Edge, nat>, w: map<Edge, nat>, p: seq<Node>, F: set<Edge>, last: nat) {
    && F <= D.Keys && last < |p| && p[last] in T
    && Weight(F, D) + Length(p[last..], w) <= Length(p, w)
    && JoinsAlong(T, p, F)
  }

  /** Joining consecutive terminals along a walk costs at most the walk. */
  lemma {:induction false} PairsAlong(T: set<Node>, D: map<Edge, nat>, w: map<Edge, nat>, p: seq<Node>)
    returns (F: set<Edge>, last: nat)
    requires PricesPairs(T, D, w) && IsWalk(w.Keys, p) && p[0] in T
    ensures PaidAlong(T, D, w, p, F, last)
    decreases |p|
  {
    var n := |p| - 1;
    if n == 0 {
      F, last := {}, 0;
      ConnRefl(F, p[0]);
    } else {
      var front, y := p[..n], p[n];
      FrontWalk(w.Keys, p);
      F, last := PairsAlong(T, D, w, front);
      TailStep(front, y, w, last);
      FrontAndLast(p);
      if y in T {
        F := PayLast(T, D, w, front, y, F, last);
        last := n;
      } else {
        PayNothing(T, D, w, front, y, F, last);
      }
    }
  }

  lemma FrontWalk(E: set<Edge>, p: seq<Node>)
    requires IsWalk(E, p) && |p| > 1
    ensures IsWalk(E, p[..|p| - 1])
  {
    SubWalk(E, p, 0, |p| - 1);
    assert p[0..|p| - 1] == p[..|p| - 1];
  }

  lemma PayNothing(T: set<Node>, D: map<Edge, nat>, w: map<Edge, nat>, front: seq<Node>, y: Node, F: set<Edge>,
                   last: nat)
    requires PaidAlong(T, D, w, front, F, last) && y !in T
    requires Weight(F, D) + Length((front + [y])[last..], w) <= Length(front + [y], w)
    ensures PaidAlong(T, D, w, front + [y], F, last)
  {
  }

  lemma TailStep(front: seq<Node>, y: Node, w: map<Edge, nat>, last: nat)
    requires last < |front|
    ensures Length((front + [y])[last..], w) - Length(front[last..], w) == Length(front + [y], w) - Length(front, w)
  {
    TailOfLonger(front, y, last);
    LengthLast(front, y, w);
    LengthLast(front[last..], y, w);
  }

  lemma TailOfLonger<T>(front: seq<T>, y: T, last: nat)
    requires last < |front|
    ensures (front + [y])[last..] == front[last..] + [y]
  {
  }

  lemma LengthLast(front: seq<Node>, y: Node, w: map<Edge, nat>)
    requires front != []
    ensures Length(front + [y], w) == Length(front, w) + Cost(w, Pair(front[|front| - 1], y))
  {
    assert (front + [y])[..|front|] == front;
  }

  /** The pair of the last terminal met and the end of the walk costs no more than the walk between them. */
  lemma PairPrice(T: set<Node>, D: map<Edge, nat>, w: map<Edge, nat>, p: seq<Node>, last: nat)
    requires PricesPairs(T, D, w) && IsWalk(w.Keys, p) && last < |p| && p[last] in T && p[|p| - 1] in T
    requires p[last] != p[|p| - 1]
    ensures var e := Pair(p[last], p[|p| - 1]); e in D && Cost(D, e) <= Length(p[last..], w)
  {
    SubWalk(w.Keys, p, last, |p|);
    assert p[last..|p|] == p[last..];
    assert WalkFrom(w.Keys, p[last..], p[last], p[|p| - 1]);
  }

  lemma JoinsLast(T: set<Node>, front: seq<Node>, y: Node, F0: set<Edge>, last: nat)
    requires last < |front| && front[last] in T && JoinsAlong(T, front, F0)
    ensures JoinsAlong(T, front + [y], if front[last] == y then F0 else F0 + {Pair(front[last], y)})
  {
    var z, x0 := front[last], front[0];
    var F := if z == y then F0 else F0 + {Pair(z, y)};
    assert Conn(F0, x0, z);
    if z != y {
      ConnMono(F0, F, x0, z);
      ConnStep(F, z, y);
      ConnTrans(F, x0, z, y);
    }
    forall x | x in front && x in T ensures Conn(F, x0, x) {
      ConnMono(F0, F, x0, x);
    }
  }

  lemma PayLast(T: set<Node>, D: map<Edge, nat>, w: map<Edge, nat>, front: seq<Node>, y: Node, F0: set<Edge>, last: nat)
    returns (F: set<Edge>)
    requires PricesPairs(T, D, w) && IsWalk(w.Keys, front + [y]) && y in T && PaidAlong(T, D, w, front, F0, last)
    requires Weight(F0, D) + Length((front + [y])[last..], w) <= Length(front + [y], w)
    ensures PaidAlong(T, D, w, front + [y], F, |front|)
  {
    var p := front + [y];
    assert p[|front|..] == [y];
    JoinsLast(T, front, y, F0, last);
    if front[last] == y {
      F := F0;
    } else {
      F := F0 + {Pair(front[last], y)};
      PairPrice(T, D, w, p, last);
      WeightAdd(F0, D, Pair(front[last], y));
    }
  }

  /** Any subgraph H that joins the terminals pays, doubled, for some set of terminal pairs that
      joins them. */
  lemma PairsWithinTwice(T: set<Node>, D: map<Edge, nat>, w: map<Edge, nat>, H: set<Edge>) returns (F: set<Edge>)
    requires PricesPairs(T, D, w) && H <= w.Keys && Connected(T, H)
    requires forall e :: e in H ==> exists x, y :: e == Pair(x, y)
    ensures F <= D.Keys && Connected(T, F) && Weight(F, D) <= 2 * Weight(H, w)
  {
    if r :| r in T {
      var p := CoveringWalk(H, w, r);
      assert IsWalk(w.Keys, p);
      var last;
      F, last := PairsAlong(T, D, w, p);
      forall x, y | x in T && y in T ensures Conn(F, x, y) {
        ConnSym(F, r, x);
        ConnTrans(F, x, r, y);
      }
    } else {
      F := {};
    }
  }

  /** When M already joins the terminals, being promising means being cheapest, and so at most twice
      any subgraph that joins them. */
  lemma GreedyWithinTwice(T: set<Node>, D: map<Edge, nat>, w: map<Edge, nat>, M: set<Edge>, H: set<Edge>)
    requires PricesPairs(T, D, w) && Promising(T, D, M)
    requires H <= w.Keys && Connected(T, H)
    requires forall e :: e in H ==> exists x, y :: e == Pair(x, y)
    ensures Weight(M, D) <= 2 * Weight(H, w)
  {
    var F := PairsWithinTwice(T, D, w, H);
    assert CompletesWithin(T, D, M, F);
  }
}
