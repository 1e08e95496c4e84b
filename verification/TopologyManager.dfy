/** The topology manager: bandwidth and VLAN bookkeeping on nodes and edges. Every reservation checks
    all the places it names before it touches any of them. */
module TopologyManagers {
  import opened Basics
  import opened Graphs
  import opened PathResources
  import opened SteinerTree

  datatype NodeInfo = NodeInfo(isSwitch: bool, vlans: seq<int>)
  datatype Link = Link(weight: nat, bwInUse: int, vlans: seq<int>, available: seq<int>)

  type Nodes = map<Node, NodeInfo>
  type Links = map<Edge, Link>

  /** Done; refused before anything changed; or raised halfway through a removal. */
  datatype Outcome = Done | Refused | Broken

  // ----- Reading the meters -----

  function Read(nodes: Nodes, edges: Links, m: Meter): int {
    match m
    case Bw(e) => if e in edges then edges[e].bwInUse else 0
    case EdgeVlan(e, v) => if e in edges then multiset(edges[e].vlans)[v] else 0
    case NodeVlan(n, v) => if n in nodes then multiset(nodes[n].vlans)[v] else 0
  }

  /** No edge carries more than its weight, and no VLAN is used twice in one place. */
  function Capacity(edges: Links, m: Meter): int {
    match m
    case Bw(e) => if e in edges then edges[e].weight else 0
    case _ => 1
  }

  ghost predicate Tidy(nodes: Nodes, edges: Links) {
    forall m: Meter {:trigger Read(nodes, edges, m)} :: (m.Bw? ==> m.e in edges) ==>
      0 <= Read(nodes, edges, m) <= Capacity(edges, m)
  }

  /** Reservations change what is in use, never what exists. */
  ghost predicate SameShape(nodes: Nodes, edges: Links, nodes': Nodes, edges': Links) {
    && nodes.Keys == nodes'.Keys && edges.Keys == edges'.Keys
    && (forall n :: n in nodes ==> nodes'[n].isSwitch == nodes[n].isSwitch)
    && (forall e :: e in edges ==> edges'[e].weight == edges[e].weight && edges'[e].available == edges[e].available)
  }

  predicate HasLink(edges: Links, h: Hop) {
    Pair(h.0, h.1) in edges
  }

  predicate RoomForBw(edges: Links, h: Hop, bw: int) {
    HasLink(edges, h) && edges[Pair(h.0, h.1)].bwInUse + bw <= edges[Pair(h.0, h.1)].weight
  }

  predicate HoldsBw(edges: Links, h: Hop, bw: int) {
    HasLink(edges, h) && bw <= edges[Pair(h.0, h.1)].bwInUse
  }

  predicate FreeOnLink(edges: Links, h: Hop, vlan: int) {
    HasLink(edges, h) && vlan !in edges[Pair(h.0, h.1)].vlans
  }

  predicate FreeOnNode(nodes: Nodes, n: Node, vlan: int) {
    n in nodes && vlan !in nodes[n].vlans
  }

  predicate UsedOnLink(edges: Links, h: Hop, vlan: int) {
    HasLink(edges, h) && vlan in edges[Pair(h.0, h.1)].vlans
  }

  predicate UsedOnNode(nodes: Nodes, n: Node, vlan: int) {
    n in nodes && vlan in nodes[n].vlans
  }

  // ----- Single updates -----

  function AddBw(edges: Links, h: Hop, bw: int): Links
    requires HasLink(edges, h)
  {
    var e := Pair(h.0, h.1);
    edges[e := edges[e].(bwInUse := edges[e].bwInUse + bw)]
  }

  function AppendOnLink(edges: Links, h: Hop, vlan: int): Links
    requires HasLink(edges, h)
  {
    var e := Pair(h.0, h.1);
    edges[e := edges[e].(vlans := edges[e].vlans + [vlan])]
  }

  function AppendOnNode(nodes: Nodes, n: Node, vlan: int): Nodes
    requires n in nodes
  {
    nodes[n := nodes[n].(vlans := nodes[n].vlans + [vlan])]
  }

  /** Python's list.remove: drops the first occurrence. */
  function RemoveFirst(s: seq<int>, v: int): (r: seq<int>)
    requires v in s
    ensures multiset(r) == multiset(s) - multiset{v}
  {
    if s[0] == v then
      assert s == [v] + s[1..];
      s[1..]
    else
      assert s == [s[0]] + s[1..];
      [s[0]] + RemoveFirst(s[1..], v)
  }

  function DropOnLink(edges: Links, h: Hop, vlan: int): Links
    requires UsedOnLink(edges, h, vlan)
  {
    var e := Pair(h.0, h.1);
    edges[e := edges[e].(vlans := RemoveFirst(edges[e].vlans, vlan))]
  }

  function DropOnNode(nodes: Nodes, n: Node, vlan: int): Nodes
    requires UsedOnNode(nodes, n, vlan)
  {
    nodes[n := nodes[n].(vlans := RemoveFirst(nodes[n].vlans, vlan))]
  }

  /** Every meter moved by exactly `take`. */
  ghost predicate Moved(nodes: Nodes, edges: Links, nodes': Nodes, edges': Links, take: Meter -> int) {
    SameShape(nodes, edges, nodes', edges') &&
    forall m: Meter {:trigger Read(nodes', edges', m)} :: Read(nodes', edges', m) == Read(nodes, edges, m) + take(m)
  }

  lemma TimesStep(pairs: seq<Hop>, i: nat, b: int, e: Edge)
    requires i < |pairs|
    ensures Times(pairs[..i + 1], b, e) == Times(pairs[..i], b, e) + if Crosses(pairs[i], e) then b else 0
  {
    assert pairs[..i + 1][..i] == pairs[..i];
  }

  lemma OccursStep(nodes: seq<Node>, i: nat, n: Node)
    requires i < |nodes|
    ensures Occurs(nodes[..i + 1], n) == Occurs(nodes[..i], n) + if nodes[i] == n then 1 else 0
  {
    assert nodes[..i + 1][..i] == nodes[..i];
  }

  /** Every VLAN meter that a removal would lower stands high enough. */
  ghost predicate Enough(nodes: Nodes, edges: Links, places: seq<Node>, pairs: seq<Hop>, vlan: int) {
    forall m: Meter {:trigger Read(nodes, edges, m)} :: !m.Bw? ==>
      VlanTake(places, pairs, vlan, m) <= Read(nodes, edges, m)
  }

  lemma {:induction false} OccursMono(nodes: seq<Node>, i: nat, n: Node)
    requires i <= |nodes|
    ensures Occurs(nodes[..i], n) <= Occurs(nodes, n)
    decreases |nodes| - i
  {
    if i == |nodes| {
      assert nodes[..i] == nodes;
    } else {
      OccursStep(nodes, i, n);
      OccursMono(nodes, i + 1, n);
    }
  }

  lemma {:induction false} TimesMono(pairs: seq<Hop>, i: nat, e: Edge)
    requires i <= |pairs|
    ensures 0 <= Times(pairs[..i], 1, e) <= Times(pairs, 1, e)
    decreases |pairs| - i
  {
    TimesSign(pairs[..i], 1, e);
    if i == |pairs| {
      assert pairs[..i] == pairs;
    } else {
      TimesStep(pairs, i, 1, e);
      TimesMono(pairs, i + 1, e);
    }
  }

  lemma NotEnough(nodes: Nodes, edges: Links, places: seq<Node>, pairs: seq<Hop>, vlan: int)
    requires (exists n :: n in places && !UsedOnNode(nodes, n, vlan))
             || (exists h :: h in pairs && !UsedOnLink(edges, h, vlan))
    ensures !Enough(nodes, edges, places, pairs, vlan)
  {
    if n :| n in places && !UsedOnNode(nodes, n, vlan) {
      var i :| 0 <= i < |places| && places[i] == n;
      OccursStep(places, i, n);
      OccursMono(places, i + 1, n);
      assert Read(nodes, edges, NodeVlan(n, vlan)) == 0;
    } else {
      var h :| h in pairs && !UsedOnLink(edges, h, vlan);
      var i :| 0 <= i < |pairs| && pairs[i] == h;
      var e := Pair(h.0, h.1);
      TimesMono(pairs, i, e);
      TimesStep(pairs, i, 1, e);
      TimesMono(pairs, i + 1, e);
      assert Read(nodes, edges, EdgeVlan(e, vlan)) == 0;
    }
  }

  lemma EnoughDistinct(nodes: Nodes, edges: Links, places: seq<Node>, pairs: seq<Hop>, vlan: int)
    requires forall n :: n in places ==> UsedOnNode(nodes, n, vlan)
    requires forall h :: h in pairs ==> UsedOnLink(edges, h, vlan)
    ensures Distinct(places) && DistinctEdges(pairs) ==> Enough(nodes, edges, places, pairs, vlan)
  {
    if Distinct(places) && DistinctEdges(pairs) {
      forall m: Meter | !m.Bw? ensures VlanTake(places, pairs, vlan, m) <= Read(nodes, edges, m) {
        if m.NodeVlan? { OccursDistinct(places, m.n); } else { TimesDistinct(pairs, 1, m.e); }
      }
    }
  }

  lemma MovedBoth(nodes0: Nodes, edges0: Links, nodes1: Nodes, edges1: Links, nodes2: Nodes, edges2: Links,
                  f: Meter -> int, g: Meter -> int, h: Meter -> int)
    requires Moved(nodes0, edges0, nodes1, edges1, f) && Moved(nodes1, edges1, nodes2, edges2, g)
    requires forall m :: f(m) + g(m) == h(m)
    ensures Moved(nodes0, edges0, nodes2, edges2, h)
  {
    forall m: Meter ensures Read(nodes2, edges2, m) == Read(nodes0, edges0, m) + h(m) {
      assert Read(nodes1, edges1, m) == Read(nodes0, edges0, m) + f(m);
    }
  }

  /** VLAN meters never go below zero, so whatever was taken had been there. */
  lemma MovedDown(nodes0: Nodes, edges0: Links, nodes: Nodes, edges: Links, places: seq<Node>, pairs: seq<Hop>,
                  vlan: int)
    requires Moved(nodes0, edges0, nodes, edges, m => -VlanTake(places, pairs, vlan, m))
    ensures Enough(nodes0, edges0, places, pairs, vlan)
  {
    forall m: Meter | !m.Bw? ensures VlanTake(places, pairs, vlan, m) <= Read(nodes0, edges0, m) {
      assert 0 <= Read(nodes, edges, m);
    }
  }

  /** A reservation succeeds exactly when every place it names has room. */
  ghost predicate Fits(w: Wiring, nodes: Nodes, edges: Links, r: Resource) {
    && Known(w, r)
    && (r.IsVlan() ==> forall n :: n in NodesOf(r) ==> FreeOnNode(nodes, n, r.Value()))
    && (forall h :: h in PairsOf(w, r) ==>
          if r.IsVlan() then FreeOnLink(edges, h, r.Value()) else RoomForBw(edges, h, r.Value()))
  }

  /** A removal succeeds exactly when everything it takes back is there. */
  ghost predicate Held(w: Wiring, nodes: Nodes, edges: Links, r: Resource) {
    && Known(w, r)
    && (r.IsVlan() ==> Enough(nodes, edges, NodesOf(r), PairsOf(w, r), r.Value()))
    && (!r.IsVlan() ==> forall h :: h in PairsOf(w, r) ==> HoldsBw(edges, h, r.Value()))
  }

  lemma NothingOwed(nodes: Nodes, edges: Links, vlan: int)
    ensures Enough(nodes, edges, [], [], vlan)
  {
  }

  /** Every edge the resource names carries `k` times its bandwidth more, or its VLAN `k` times more often; so does
      every node of a path or a tree; and nothing else changes. */
  ghost predicate Charged(w: Wiring, nodes: Nodes, edges: Links, nodes': Nodes, edges': Links, r: Resource, k: int) {
    && nodes'.Keys == nodes.Keys && edges'.Keys == edges.Keys
    && (forall e :: e in edges ==> edges'[e].bwInUse == edges[e].bwInUse + k * BandwidthAsked(w, r, e))
    && (forall e, v :: e in edges ==>
          multiset(edges'[e].vlans)[v] == multiset(edges[e].vlans)[v] + k * VlanAsked(w, r, e, v))
    && (forall n, v :: n in nodes ==>
          multiset(nodes'[n].vlans)[v] == multiset(nodes[n].vlans)[v] + k * VlanAskedAt(r, n, v))
  }

  lemma MovedCharges(w: Wiring, nodes: Nodes, edges: Links, nodes': Nodes, edges': Links, r: Resource)
    requires WellFormed(w, r)
    ensures Moved(nodes, edges, nodes', edges', TakeOf(w, r)) ==> Charged(w, nodes, edges, nodes', edges', r, 1)
    ensures Moved(nodes, edges, nodes', edges', MinusTake(w, r)) ==> Charged(w, nodes, edges, nodes', edges', r, -1)
  {
    if Moved(nodes, edges, nodes', edges', TakeOf(w, r)) { MovedCharge(w, nodes, edges, nodes', edges', r, 1); }
    if Moved(nodes, edges, nodes', edges', MinusTake(w, r)) { MovedCharge(w, nodes, edges, nodes', edges', r, -1); }
  }

  lemma MovedCharge(w: Wiring, nodes: Nodes, edges: Links, nodes': Nodes, edges': Links, r: Resource, k: int)
    requires WellFormed(w, r) && SameShape(nodes, edges, nodes', edges')
    requires forall m {:trigger Read(nodes', edges', m)} ::
               Read(nodes', edges', m) == Read(nodes, edges, m) + k * Take(w, r, m)
    ensures Charged(w, nodes, edges, nodes', edges', r, k)
  {
    forall e | e in edges ensures edges'[e].bwInUse == edges[e].bwInUse + k * BandwidthAsked(w, r, e) {
      TakesExactly(w, r, Bw(e));
      var m := Bw(e);
      assert Read(nodes', edges', m) == Read(nodes, edges, m) + k * Take(w, r, m);
    }
    forall e, v | e in edges
      ensures multiset(edges'[e].vlans)[v] == multiset(edges[e].vlans)[v] + k * VlanAsked(w, r, e, v)
    {
      TakesExactly(w, r, EdgeVlan(e, v));
      var m := EdgeVlan(e, v);
      assert Read(nodes', edges', m) == Read(nodes, edges, m) + k * Take(w, r, m);
    }
    forall n, v | n in nodes
      ensures multiset(nodes'[n].vlans)[v] == multiset(nodes[n].vlans)[v] + k * VlanAskedAt(r, n, v)
    {
      TakesExactly(w, r, NodeVlan(n, v));
      var m := NodeVlan(n, v);
      assert Read(nodes', edges', m) == Read(nodes, edges, m) + k * Take(w, r, m);
    }
  }

  /** A well-formed reservation that succeeds keeps every meter within its capacity. */
  lemma ReserveKeepsTidy(w: Wiring, nodes: Nodes, edges: Links, nodes': Nodes, edges': Links, r: Resource)
    requires Tidy(nodes, edges) && WellFormed(w, r) && Fits(w, nodes, edges, r)
    requires Moved(nodes, edges, nodes', edges', TakeOf(w, r))
    ensures Tidy(nodes', edges')
  {
    forall m: Meter | m.Bw? ==> m.e in edges'
      ensures 0 <= Read(nodes', edges', m) <= Capacity(edges', m)
    {
      assert 0 <= Read(nodes, edges, m) <= Capacity(edges, m);
      match m
      case Bw(e) => TimesDistinct(PairsOf(w, r), r.Value(), e);
      case EdgeVlan(e, v) => TimesDistinct(PairsOf(w, r), 1, e);
      case NodeVlan(n, v) => OccursDistinct(NodesOf(r), n);
    }
  }

  /** So does a well-formed removal that succeeds. */
  lemma UnreserveKeepsTidy(w: Wiring, nodes: Nodes, edges: Links, nodes': Nodes, edges': Links, r: Resource)
    requires Tidy(nodes, edges) && WellFormed(w, r) && Held(w, nodes, edges, r)
    requires Moved(nodes, edges, nodes', edges', MinusTake(w, r))
    ensures Tidy(nodes', edges')
  {
    forall m: Meter | m.Bw? ==> m.e in edges'
      ensures 0 <= Read(nodes', edges', m) <= Capacity(edges', m)
    {
      assert 0 <= Read(nodes, edges, m) <= Capacity(edges, m);
      match m
      case Bw(e) => TimesDistinct(PairsOf(w, r), r.Value(), e);
      case EdgeVlan(e, v) => TimesDistinct(PairsOf(w, r), 1, e);
      case NodeVlan(n, v) => OccursDistinct(NodesOf(r), n);
    }
  }

  // ----- Searching -----

  const VLAN_LIMIT := 4089

  /** The path names nodes and edges that exist. */
  predicate OnTopology(nodes: Nodes, edges: Links, path: seq<Node>) {
    (forall n :: n in path ==> n in nodes) && forall h :: h in Hops(path) ==> HasLink(edges, h)
  }

  predicate ClearOfSwitch(nodes: Nodes, n: Node, vlan: int) {
    n in nodes && (nodes[n].isSwitch ==> vlan !in nodes[n].vlans)
  }

  predicate Offered(edges: Links, h: Hop, vlan: int) {
    FreeOnLink(edges, h, vlan) && vlan in edges[Pair(h.0, h.1)].available
  }

  predicate ClearOnPath(nodes: Nodes, edges: Links, path: seq<Node>, vlan: int) {
    (forall n :: n in path ==> ClearOfSwitch(nodes, n, vlan)) && forall h :: h in Hops(path) ==> Offered(edges, h, vlan)
  }

  predicate ClearOnTree(nodes: Nodes, edges: Links, places: set<Node>, E: set<Edge>, vlan: int) {
    (forall n :: n in places ==> ClearOfSwitch(nodes, n, vlan))
      && forall e :: e in E ==> e in edges && vlan !in edges[e].vlans
  }

  /** No switch on the path uses the VLAN, no edge of it does, and every edge offers it. */
  ghost predicate FreeAlong(nodes: Nodes, edges: Links, path: seq<Node>, vlan: int)
    requires OnTopology(nodes, edges, path)
  {
    && (forall n :: n in path && nodes[n].isSwitch ==> vlan !in nodes[n].vlans)
    && forall h :: h in Hops(path) ==> assert HasLink(edges, h); var link := edges[Pair(h.0, h.1)];
         vlan !in link.vlans && vlan in link.available
  }

  lemma ClearIsFree(nodes: Nodes, edges: Links, path: seq<Node>, vlan: int)
    requires OnTopology(nodes, edges, path)
    ensures ClearOnPath(nodes, edges, path, vlan) <==> FreeAlong(nodes, edges, path, vlan)
  {
    forall h | h in Hops(path) ensures HasLink(edges, h) {}
    if FreeAlong(nodes, edges, path, vlan) {
      forall h | h in Hops(path) ensures Offered(edges, h, vlan) {}
      forall n | n in path ensures ClearOfSwitch(nodes, n, vlan) {}
    }
    if ClearOnPath(nodes, edges, path, vlan) {
      forall h | h in Hops(path)
        ensures vlan !in edges[Pair(h.0, h.1)].vlans && vlan in edges[Pair(h.0, h.1)].available
      {
        assert Offered(edges, h, vlan);
      }
      forall n | n in path && nodes[n].isSwitch ensures vlan !in nodes[n].vlans {
        assert ClearOfSwitch(nodes, n, vlan);
      }
    }
  }

  /** With `ignoreEndpoints` only the points strictly inside the path count. */
  function Considered(path: seq<Node>, ignoreEndpoints: bool): seq<Node> {
    if !ignoreEndpoints then path else if |path| <= 2 then [] else path[1..|path| - 1]
  }

  lemma ConsideredIs(path: seq<Node>)
    ensures Considered(path, false) == path
    ensures |path| >= 2 ==> path == [path[0]] + Considered(path, true) + [path[|path| - 1]]
    ensures |path| < 2 ==> Considered(path, true) == []
  {
  }

  ghost predicate Usable(nodes: Nodes, edges: Links, path: seq<Node>, bw: int) {
    && (exists v :: 1 <= v < VLAN_LIMIT && ClearOnPath(nodes, edges, path, v))
    && forall h :: h in Hops(path) ==> RoomForBw(edges, h, bw)
  }

  ghost predicate FirstUsable(nodes: Nodes, edges: Links, candidates: seq<seq<Node>>, ignoreEndpoints: bool, bw: int,
                              i: nat)
    requires i < |candidates|
  {
    && Usable(nodes, edges, Considered(candidates[i], ignoreEndpoints), bw)
    && forall j :: 0 <= j < i ==> !Usable(nodes, edges, Considered(candidates[j], ignoreEndpoints), bw)
  }

  /** A path that visits no node twice crosses no edge twice. */
  lemma SimpleHops(path: seq<Node>)
    requires Distinct(path)
    ensures DistinctEdges(Hops(path))
  {
    var h := Hops(path);
    forall i, j | 0 <= i < j < |h| ensures Pair(h[i].0, h[i].1) != Pair(h[j].0, h[j].1) {
      if Pair(h[i].0, h[i].1) == Pair(h[j].0, h[j].1) {
        PairInjective(path[i], path[i + 1], path[j], path[j + 1]);
      }
    }
  }

  /** What the path search accepts, the reservations accept too, except that the search ignores VLANs
      held by nodes that are not switches: the VLAN reservation succeeds exactly if those are free. */
  lemma SearchAgrees(w: Wiring, nodes: Nodes, edges: Links, path: seq<Node>, vlan: int, bw: int)
    requires Distinct(path) && OnTopology(nodes, edges, path) && ClearOnPath(nodes, edges, path, vlan)
    requires bw >= 0 && forall h :: h in Hops(path) ==> RoomForBw(edges, h, bw)
    ensures Fits(w, nodes, edges, VlanPath(path, vlan))
       <==> forall n :: n in path && !nodes[n].isSwitch ==> vlan !in nodes[n].vlans
    ensures Fits(w, nodes, edges, BandwidthPath(path, bw))
    ensures WellFormed(w, VlanPath(path, vlan)) && WellFormed(w, BandwidthPath(path, bw))
  {
    SimpleHops(path);
    var r := VlanPath(path, vlan);
    assert PairsOf(w, r) == Hops(path) && NodesOf(r) == path;
    assert PairsOf(w, BandwidthPath(path, bw)) == Hops(path);
    forall n | n in path ensures FreeOnNode(nodes, n, vlan) <==> (!nodes[n].isSwitch ==> vlan !in nodes[n].vlans) {
      assert ClearOfSwitch(nodes, n, vlan);
    }
    forall h | h in Hops(path) ensures FreeOnLink(edges, h, vlan) {
      assert Offered(edges, h, vlan);
    }
  }

  /** The two do disagree: the host at the end of this path lists VLAN 1 already, the search passes over it
      because a host is not a switch, and the reservation is refused. The policies never bring such a state about:
      they give up on a path or tree through a host before anything is reserved. */
  lemma SearchOverlooks(s: Node, h: Node)
    requires s != h
    ensures var nodes := map[s := NodeInfo(true, []), h := NodeInfo(false, [1])];
            var edges := map[Pair(s, h) := Link(10, 0, [], [1])];
            && OnTopology(nodes, edges, [s, h]) && ClearOnPath(nodes, edges, [s, h], 1)
            && !Fits(map[], nodes, edges, VlanPath([s, h], 1))
  {
    var nodes := map[s := NodeInfo(true, []), h := NodeInfo(false, [1])];
    var edges := map[Pair(s, h) := Link(10, 0, [], [1])];
    assert Hops([s, h]) == [(s, h)];
    assert h in NodesOf(VlanPath([s, h], 1)) && !FreeOnNode(nodes, h, 1);
    assert 1 in edges[Pair(s, h)].available;
  }

  /** VLAN reservations made in between leave a bandwidth reservation possible. */
  lemma BandwidthStillFits(w: Wiring, nodes: Nodes, edges: Links, nodes': Nodes, edges': Links, r: Resource)
    requires !r.IsVlan() && Fits(w, nodes, edges, r) && SameShape(nodes, edges, nodes', edges')
    requires forall e :: Read(nodes', edges', Bw(e)) == Read(nodes, edges, Bw(e))
    ensures Fits(w, nodes', edges', r)
  {
    forall h | h in PairsOf(w, r) ensures RoomForBw(edges', h, r.Value()) {
      assert RoomForBw(edges, h, r.Value());
      assert Read(nodes', edges', Bw(Pair(h.0, h.1))) == Read(nodes, edges, Bw(Pair(h.0, h.1)));
    }
  }

  datatype Search = Raised | NotFound | Grown(tree: Graph)

  predicate Sufficient(link: Link, bw: Option<int>) {
    bw.Some? ==> link.bwInUse + bw.value <= link.weight
  }

  function SufficientEdges(edges: Links, bw: Option<int>): set<Edge> {
    set e | e in edges && Sufficient(edges[e], bw)
  }

  /** An edge has enough bandwidth exactly if it could be reserved there as a tree of its own. */
  lemma SufficientFits(w: Wiring, nodes: Nodes, edges: Links, u: Node, v: Node, b: int)
    requires Pair(u, v) in edges
    ensures Sufficient(edges[Pair(u, v)], Some(b)) <==> Fits(w, nodes, edges, BandwidthTree([u, v], [(u, v)], b))
    ensures Sufficient(edges[Pair(u, v)], Some(b))
       <==> Read(nodes, edges, Bw(Pair(u, v))) + b <= Capacity(edges, Bw(Pair(u, v)))
    ensures Sufficient(edges[Pair(u, v)], None)
  {
    var r := BandwidthTree([u, v], [(u, v)], b);
    assert PairsOf(map[], r) == [(u, v)] && PairsOf(w, r) == [(u, v)];
    assert (u, v) in PairsOf(w, r);
  }

  /** Edges on each of which so much more could be reserved. */
  ghost predicate Accepting(edges: Links, H: set<Edge>, bw: Option<int>) {
    forall e :: e in H ==> e in edges && (bw.Some? ==> edges[e].bwInUse + bw.value <= edges[e].weight)
  }

  /** Such edges join the nodes. */
  ghost predicate Joinable(edges: Links, T: set<Node>, bw: Option<int>) {
    exists H :: Accepting(edges, H, bw) && Connected(T, H)
  }

  lemma JoinableIff(edges: Links, T: set<Node>, bw: Option<int>)
    ensures Joinable(edges, T, bw) <==> Connected(T, SufficientEdges(edges, bw))
  {
    var S := SufficientEdges(edges, bw);
    assert Accepting(edges, S, bw);
    if H :| Accepting(edges, H, bw) && Connected(T, H) {
      forall x, y | x in T && y in T ensures Conn(S, x, y) { ConnMono(H, S, x, y); }
    }
  }

  ghost predicate Pruned(edges0: Links, edges: Links, bw: Option<int>) {
    && edges.Keys <= edges0.Keys
    && (forall e :: e in edges ==> edges[e] == edges0[e])
    && forall e :: e in edges0 && e !in edges ==> !Sufficient(edges0[e], bw)
  }

  lemma PruneOne(edges0: Links, edges: Links, bw: Option<int>, e: Edge)
    requires Pruned(edges0, edges, bw) && e in edges && !Sufficient(edges[e], bw)
    ensures Pruned(edges0, edges - {e}, bw) && |edges - {e}| == |edges| - 1
  {
    assert (edges - {e}).Keys == edges.Keys - {e};
  }

  /** The cables of switch u that are left when some edges have been deleted. */
  function Plugged(u: Node, cables: seq<Cable>, gone: set<Edge>): seq<Cable> {
    if cables == [] then []
    else if Pair(u, cables[0].neighbor) in gone then Plugged(u, cables[1..], gone)
    else [cables[0]] + Plugged(u, cables[1..], gone)
  }

  function Unplugged(w: Wiring, gone: set<Edge>): Wiring {
    map u | u in w :: Plugged(u, w[u], gone)
  }

  lemma {:induction false} PluggedNone(u: Node, cables: seq<Cable>)
    ensures Plugged(u, cables, {}) == cables
  {
    if cables != [] {
      PluggedNone(u, cables[1..]);
      assert cables == [cables[0]] + cables[1..];
    }
  }

  lemma UnplugNone(w: Wiring)
    ensures Unplugged(w, {}) == w
  {
    forall u | u in w ensures Plugged(u, w[u], {}) == w[u] { PluggedNone(u, w[u]); }
  }

  lemma {:induction false} PluggedMore(u: Node, cables: seq<Cable>, g: set<Edge>, h: set<Edge>)
    ensures Plugged(u, Plugged(u, cables, g), h) == Plugged(u, cables, g + h)
  {
    if cables != [] {
      PluggedMore(u, cables[1..], g, h);
      if Pair(u, cables[0].neighbor) !in g {
        var kept := Plugged(u, cables, g);
        assert kept[0] == cables[0] && kept[1..] == Plugged(u, cables[1..], g);
      }
    }
  }

  /** Deleting edges in two goes is deleting them together. */
  lemma UnplugMore(w: Wiring, g: set<Edge>, h: set<Edge>)
    ensures Unplugged(Unplugged(w, g), h) == Unplugged(w, g + h)
  {
    forall u | u in w ensures Plugged(u, Plugged(u, w[u], g), h) == Plugged(u, w[u], g + h) {
      PluggedMore(u, w[u], g, h);
    }
  }

  /** Some insufficient edges are gone, and their cables with them. */
  ghost predicate Trimmed(edges0: Links, wiring0: Wiring, edges: Links, wiring: Wiring, bw: Option<int>) {
    Pruned(edges0, edges, bw) && wiring == Unplugged(wiring0, edges0.Keys - edges.Keys)
  }

  lemma TrimNone(edges: Links, wiring: Wiring, bw: Option<int>)
    ensures Trimmed(edges, wiring, edges, wiring, bw)
  {
    UnplugNone(wiring);
    assert edges.Keys - edges.Keys == {};
  }

  lemma TrimOne(edges0: Links, wiring0: Wiring, edges: Links, wiring: Wiring, bw: Option<int>, e: Edge)
    requires Trimmed(edges0, wiring0, edges, wiring, bw) && e in edges && !Sufficient(edges[e], bw)
    ensures Trimmed(edges0, wiring0, edges - {e}, Unplugged(wiring, {e}), bw) && |edges - {e}| == |edges| - 1
  {
    PruneOne(edges0, edges, bw, e);
    UnplugMore(wiring0, edges0.Keys - edges.Keys, {e});
    assert edges0.Keys - (edges - {e}).Keys == (edges0.Keys - edges.Keys) + {e};
  }

  // ----- What a search leaves of the active rules -----

  lemma {:induction false} TimesNone(pairs: seq<Hop>, b: int, e: Edge)
    requires forall h :: h in pairs ==> !Crosses(h, e)
    ensures Times(pairs, b, e) == 0
    decreases |pairs|
  {
    if pairs != [] {
      assert pairs[|pairs| - 1] in pairs;
      TimesNone(pairs[..|pairs| - 1], b, e);
    }
  }

  /** What an active rule holds on a path or a tree can still be given back after a search exactly if the search has
      deleted none of its edges. */
  lemma HeldAfterSearch(w: Wiring, nodes: Nodes, edges0: Links, edges: Links, bw: Option<int>, r: Resource)
    requires Pruned(edges0, edges, bw) && Held(w, nodes, edges0, r) && !r.OnPort()
    ensures Held(Unplugged(w, edges0.Keys - edges.Keys), nodes, edges, r)
       <==> forall h :: h in PairsOf(w, r) ==> HasLink(edges, h)
  {
    var w', pairs, places, v := Unplugged(w, edges0.Keys - edges.Keys), PairsOf(w, r), NodesOf(r), r.Value();
    assert PairsOf(w', r) == pairs;
    if h :| h in pairs && !HasLink(edges, h) {
      if r.IsVlan() { NotEnough(nodes, edges, places, pairs, v); } else { assert !HoldsBw(edges, h, v); }
    } else if r.IsVlan() {
      forall m: Meter | !m.Bw? ensures VlanTake(places, pairs, v, m) <= Read(nodes, edges, m) {
        assert VlanTake(places, pairs, v, m) <= Read(nodes, edges0, m);
        if m.EdgeVlan? && m.e !in edges {
          forall h | h in pairs ensures !Crosses(h, m.e) { assert HasLink(edges, h); }
          TimesNone(pairs, 1, m.e);
        }
      }
    } else {
      forall h | h in pairs ensures HoldsBw(edges, h, v) {
        assert HasLink(edges, h) && HoldsBw(edges0, h, v);
      }
    }
  }

  predicate PortsDistinct(cables: seq<Cable>) {
    forall i, j :: 0 <= i < j < |cables| ==> cables[i].port != cables[j].port
  }

  lemma {:induction false} FirstPlugged(u: Node, cables: seq<Cable>, gone: set<Edge>, p: int)
    requires PortsDistinct(cables)
    ensures FirstOn(Plugged(u, cables, gone), p)
         == if FirstOn(cables, p).Some? && Pair(u, FirstOn(cables, p).value) in gone then None else FirstOn(cables, p)
    ensures (forall i :: 0 <= i < |cables| ==> cables[i].port != p) ==> FirstOn(cables, p) == None
  {
    if cables != [] {
      var rest := cables[1..];
      assert forall i :: 0 <= i < |rest| ==> rest[i] == cables[i + 1];
      FirstPlugged(u, rest, gone, p);
      if Pair(u, cables[0].neighbor) !in gone {
        assert Plugged(u, cables, gone)[1..] == Plugged(u, rest, gone);
      }
    }
  }

  /** What it holds on a port can always be given back, but behind a deleted edge that is nothing any more. */
  lemma PortAfterSearch(w: Wiring, nodes: Nodes, edges0: Links, edges: Links, bw: Option<int>, r: Resource, m: Meter)
    requires Pruned(edges0, edges, bw) && Held(w, nodes, edges0, r) && r.OnPort() && PortsDistinct(w[r.switch])
    ensures var w', n := Unplugged(w, edges0.Keys - edges.Keys), PortNeighbor(w, r.switch, r.port);
            && Held(w', nodes, edges, r)
            && Take(w', r, m) == if n.Some? && !HasLink(edges, (r.switch, n.value)) then 0 else Take(w, r, m)
  {
    var gone := edges0.Keys - edges.Keys;
    var w', pairs, n := Unplugged(w, gone), PairsOf(w, r), PortNeighbor(w, r.switch, r.port);
    FirstPlugged(r.switch, w[r.switch], gone, r.port);
    if n.Some? {
      var h := (r.switch, n.value);
      assert pairs == [h];
      assert HasLink(edges0, h) by {
        if r.IsVlan() && !UsedOnLink(edges0, h, r.Value()) {
          NotEnough(nodes, edges0, [], pairs, r.Value());
        } else if !r.IsVlan() {
          assert HoldsBw(edges0, h, r.Value());
        }
      }
      StayHeld(w, w', nodes, edges0, edges, bw, r, h);
    } else {
      assert PairsOf(w', r) == [] && pairs == [];
    }
  }

  lemma StayHeld(w: Wiring, w': Wiring, nodes: Nodes, edges0: Links, edges: Links, bw: Option<int>, r: Resource, h: Hop)
    requires Pruned(edges0, edges, bw) && Held(w, nodes, edges0, r) && r.OnPort() && HasLink(edges0, h)
    requires PairsOf(w, r) == [h] && r.switch in w' && PairsOf(w', r) == if HasLink(edges, h) then [h] else []
    ensures Held(w', nodes, edges, r)
  {
    if r.IsVlan() {
      forall m: Meter | !m.Bw? ensures VlanTake([], PairsOf(w', r), r.Value(), m) <= Read(nodes, edges, m) {
        assert VlanTake([], [h], r.Value(), m) <= Read(nodes, edges0, m);
        if m.EdgeVlan? && !Crosses(h, m.e) { TimesNone(PairsOf(w', r), 1, m.e); }
      }
    } else if HasLink(edges, h) {
      assert HoldsBw(edges0, h, r.Value());
    }
  }

  /** Pruning never separates what enough bandwidth joins. */
  lemma StillApart(edges0: Links, edges: Links, bw: Option<int>, T: set<Node>, G: Topo)
    requires Pruned(edges0, edges, bw) && G.weight == (map e | e in edges :: edges[e].weight)
    requires !Connected(T, G.weight.Keys)
    ensures !Joinable(edges0, T, bw) && !Connected(T, edges.Keys)
  {
    var S, K := SufficientEdges(edges0, bw), edges.Keys;
    assert G.weight.Keys == K;
    JoinableIff(edges0, T, bw);
    if Connected(T, S) {
      forall x, y | x in T && y in T ensures Conn(K, x, y) {
        ConnMono(S, K, x, y);
      }
      assert false;
    }
  }

  lemma ApartWithoutEdges(voi: seq<Node>)
    requires |voi| > 1 && Distinct(voi)
    ensures !Connected(ToSet(voi), {})
  {
    assert voi[0] in ToSet(voi) && voi[1] in ToSet(voi);
    if Conn({}, voi[0], voi[1]) {
      Isolated({}, voi[0], voi[1]);
      assert false;
    }
  }

  /** When every edge is gone, none had enough. */
  lemma ApartAtLast(edges0: Links, edges: Links, bw: Option<int>, voi: seq<Node>)
    requires Pruned(edges0, edges, bw) && |edges| == 0 && |voi| > 1 && Distinct(voi)
    ensures !Joinable(edges0, ToSet(voi), bw) && !Connected(ToSet(voi), edges.Keys)
  {
    assert SufficientEdges(edges0, bw) == {} && edges.Keys == {};
    ApartWithoutEdges(voi);
    JoinableIff(edges0, ToSet(voi), bw);
  }

  lemma GrownJoins(edges0: Links, edges: Links, bw: Option<int>, T: set<Node>, places: set<Node>, E: set<Edge>)
    requires Pruned(edges0, edges, bw) && Accepting(edges, E, bw)
    requires T <= places && (T != {} ==> Connected(places, E))
    ensures Joinable(edges0, T, bw)
  {
    assert Accepting(edges0, E, bw);
    assert Connected(T, E);
  }

  lemma {:induction false} WeightAgrees(E: set<Edge>, w: map<Edge, nat>, w': map<Edge, nat>)
    requires forall e :: e in E ==> Cost(w, e) == Cost(w', e)
    ensures Weight(E, w) == Weight(E, w')
    decreases E
  {
    if e :| e in E {
      WeightTake(E, w, e);
      WeightTake(E, w', e);
      WeightAgrees(E - {e}, w, w');
    }
  }

  /** No other such edges that join the nodes weigh less than half as much. */
  ghost predicate WithinTwice(edges: Links, bw: Option<int>, T: set<Node>, E: set<Edge>, w: map<Edge, nat>) {
    forall H {:trigger Connected(T, H)} :: Accepting(edges, H, bw) && Connected(T, H) ==>
      Weight(E, w) <= 2 * Weight(H, w)
  }

  lemma GrownWithinTwice(edges0: Links, edges: Links, bw: Option<int>, T: set<Node>, E: set<Edge>, G: Topo,
                         w0: map<Edge, nat>)
    requires Pruned(edges0, edges, bw) && E <= edges.Keys && WithinTwiceBest(G, T, E)
    requires G.weight == (map e | e in edges :: edges[e].weight)
    requires w0 == (map e | e in edges0 :: edges0[e].weight)
    ensures WithinTwice(edges0, bw, T, E, w0)
  {
    forall H | Accepting(edges0, H, bw) && Connected(T, H) ensures Weight(E, w0) <= 2 * Weight(H, w0) {
      assert H <= SufficientEdges(edges0, bw);
      assert H <= edges.Keys;
      WeightAgrees(H, G.weight, w0);
      WeightAgrees(E, G.weight, w0);
    }
  }

  lemma ReadDropNode(nodes: Nodes, edges: Links, n: Node, vlan: int, m: Meter)
    requires UsedOnNode(nodes, n, vlan)
    ensures Read(DropOnNode(nodes, n, vlan), edges, m)
         == Read(nodes, edges, m) - if m == NodeVlan(n, vlan) then 1 else 0
  {
  }

  lemma ReadDropLink(nodes: Nodes, edges: Links, h: Hop, vlan: int, m: Meter)
    requires UsedOnLink(edges, h, vlan)
    ensures Read(nodes, DropOnLink(edges, h, vlan), m)
         == Read(nodes, edges, m) - if m == EdgeVlan(Pair(h.0, h.1), vlan) then 1 else 0
  {
  }

  lemma LinkDropped(nodes: Nodes, edges0: Links, edges: Links, pairs: seq<Hop>, i: nat, vlan: int)
    requires i < |pairs| && UsedOnLink(edges, pairs[i], vlan)
    requires Moved(nodes, edges0, nodes, edges, m => -VlanTake([], pairs[..i], vlan, m))
    ensures Moved(nodes, edges0, nodes, DropOnLink(edges, pairs[i], vlan), m => -VlanTake([], pairs[..i + 1], vlan, m))
  {
    forall m ensures Read(nodes, DropOnLink(edges, pairs[i], vlan), m)
                  == Read(nodes, edges0, m) - VlanTake([], pairs[..i + 1], vlan, m) {
      ReadDropLink(nodes, edges, pairs[i], vlan, m);
      assert Read(nodes, edges, m) == Read(nodes, edges0, m) - VlanTake([], pairs[..i], vlan, m);
      if m.EdgeVlan? { TimesStep(pairs, i, 1, m.e); }
    }
  }

  class TopologyManager {
    var wiring: Wiring
    var nodes: Nodes
    var edges: Links

    constructor (wiring: Wiring, nodes: Nodes, edges: Links)
      ensures this.wiring == wiring && this.nodes == nodes && this.edges == edges
    {
      this.wiring, this.nodes, this.edges := wiring, nodes, edges;
    }

    method ReserveBw(pairs: seq<Hop>, bw: int) returns (r: Outcome)
      modifies this`nodes, this`edges
      ensures r == Done <==> forall h :: h in pairs ==> RoomForBw(old(edges), h, bw)
      ensures r == Done ==> Moved(old(nodes), old(edges), nodes, edges, m => BwTake(pairs, bw, m))
      ensures r == Done || (r == Refused && nodes == old(nodes) && edges == old(edges))
    {
      for i := 0 to |pairs|
        invariant forall j :: 0 <= j < i ==> RoomForBw(edges, pairs[j], bw)
      {
        if !RoomForBw(edges, pairs[i], bw) {
          return Refused;
        }
      }
      ghost var edges0 := edges;
      for i := 0 to |pairs|
        invariant nodes == old(nodes) && Moved(nodes, edges0, nodes, edges, m => BwTake(pairs[..i], bw, m))
      {
        ghost var before := edges;
        edges := AddBw(edges, pairs[i], bw);
        forall m ensures Read(nodes, edges, m) == Read(nodes, edges0, m) + BwTake(pairs[..i + 1], bw, m) {
          assert Read(nodes, before, m) == Read(nodes, edges0, m) + BwTake(pairs[..i], bw, m);
          if m.Bw? { TimesStep(pairs, i, bw, m.e); }
        }
      }
      assert pairs[..|pairs|] == pairs;
      r := Done;
    }

    method UnreserveBw(pairs: seq<Hop>, bw: int) returns (r: Outcome)
      modifies this`nodes, this`edges
      ensures r == Done <==> forall h :: h in pairs ==> HoldsBw(old(edges), h, bw)
      ensures r == Done ==> Moved(old(nodes), old(edges), nodes, edges, m => -BwTake(pairs, bw, m))
      ensures r == Done || (r == Refused && nodes == old(nodes) && edges == old(edges))
    {
      for i := 0 to |pairs|
        invariant forall j :: 0 <= j < i ==> HoldsBw(edges, pairs[j], bw)
      {
        if !HoldsBw(edges, pairs[i], bw) {
          return Refused;
        }
      }
      ghost var edges0 := edges;
      for i := 0 to |pairs|
        invariant nodes == old(nodes) && Moved(nodes, edges0, nodes, edges, m => -BwTake(pairs[..i], bw, m))
      {
        ghost var before := edges;
        edges := AddBw(edges, pairs[i], -bw);
        forall m ensures Read(nodes, edges, m) == Read(nodes, edges0, m) - BwTake(pairs[..i + 1], bw, m) {
          assert Read(nodes, before, m) == Read(nodes, edges0, m) - BwTake(pairs[..i], bw, m);
          if m.Bw? { TimesStep(pairs, i, bw, m.e); }
        }
      }
      assert pairs[..|pairs|] == pairs;
      r := Done;
    }

    method AppendNodes(places: seq<Node>, vlan: int)
      requires forall n :: n in places ==> n in nodes
      modifies this`nodes, this`edges
      ensures Moved(old(nodes), old(edges), nodes, edges, m => VlanTake(places, [], vlan, m))
    {
      ghost var nodes0 := nodes;
      for i := 0 to |places|
        invariant edges == old(edges) && Moved(nodes0, edges, nodes, edges, m => VlanTake(places[..i], [], vlan, m))
      {
        ghost var before := nodes;
        nodes := AppendOnNode(nodes, places[i], vlan);
        forall m ensures Read(nodes, edges, m) == Read(nodes0, edges, m) + VlanTake(places[..i + 1], [], vlan, m) {
          assert Read(before, edges, m) == Read(nodes0, edges, m) + VlanTake(places[..i], [], vlan, m);
          if m.NodeVlan? { OccursStep(places, i, m.n); }
        }
      }
      assert places[..|places|] == places;
    }

    method AppendLinks(pairs: seq<Hop>, vlan: int)
      requires forall h :: h in pairs ==> HasLink(edges, h)
      modifies this`nodes, this`edges
      ensures Moved(old(nodes), old(edges), nodes, edges, m => VlanTake([], pairs, vlan, m))
    {
      ghost var edges0 := edges;
      for i := 0 to |pairs|
        invariant nodes == old(nodes) && Moved(nodes, edges0, nodes, edges, m => VlanTake([], pairs[..i], vlan, m))
      {
        ghost var before := edges;
        assert HasLink(edges0, pairs[i]);
        edges := AppendOnLink(edges, pairs[i], vlan);
        forall m ensures Read(nodes, edges, m) == Read(nodes, edges0, m) + VlanTake([], pairs[..i + 1], vlan, m) {
          assert Read(nodes, before, m) == Read(nodes, edges0, m) + VlanTake([], pairs[..i], vlan, m);
          if m.EdgeVlan? { TimesStep(pairs, i, 1, m.e); }
        }
      }
      assert pairs[..|pairs|] == pairs;
    }

    /** Checks every place first, then commits. */
    method ReserveVlan(places: seq<Node>, pairs: seq<Hop>, vlan: int) returns (r: Outcome)
      modifies this`nodes, this`edges
      ensures r == Done <==>
        && (forall n :: n in places ==> FreeOnNode(old(nodes), n, vlan))
        && (forall h :: h in pairs ==> FreeOnLink(old(edges), h, vlan))
      ensures r == Done ==> Moved(old(nodes), old(edges), nodes, edges, m => VlanTake(places, pairs, vlan, m))
      ensures r == Done || (r == Refused && nodes == old(nodes) && edges == old(edges))
    {
      for i := 0 to |places|
        invariant forall j :: 0 <= j < i ==> FreeOnNode(nodes, places[j], vlan)
      {
        if !FreeOnNode(nodes, places[i], vlan) {
          return Refused;
        }
      }
      for i := 0 to |pairs|
        invariant forall j :: 0 <= j < i ==> FreeOnLink(edges, pairs[j], vlan)
      {
        if !FreeOnLink(edges, pairs[i], vlan) {
          return Refused;
        }
      }
      ghost var nodes0, edges0 := nodes, edges;
      AppendNodes(places, vlan);
      ghost var nodes1, edges1 := nodes, edges;
      AppendLinks(pairs, vlan);
      MovedBoth(nodes0, edges0, nodes1, edges1, nodes, edges,
                m => VlanTake(places, [], vlan, m), m => VlanTake([], pairs, vlan, m),
                m => VlanTake(places, pairs, vlan, m));
      r := Done;
    }

    method DropNodes(places: seq<Node>, vlan: int) returns (ok: bool)
      requires forall n :: n in places ==> n in nodes
      modifies this`nodes, this`edges
      ensures ok ==> Moved(old(nodes), old(edges), nodes, edges, m => -VlanTake(places, [], vlan, m))
      ensures !ok ==> exists n :: Occurs(places, n) > Read(old(nodes), old(edges), NodeVlan(n, vlan))
    {
      ghost var nodes0 := nodes;
      for i := 0 to |places|
        invariant edges == old(edges) && Moved(nodes0, edges, nodes, edges, m => -VlanTake(places[..i], [], vlan, m))
      {
        if vlan !in nodes[places[i]].vlans {
          assert Read(nodes, edges, NodeVlan(places[i], vlan)) == 0;
          OccursStep(places, i, places[i]);
          OccursMono(places, i + 1, places[i]);
          return false;
        }
        forall m ensures Read(DropOnNode(nodes, places[i], vlan), edges, m)
                      == Read(nodes0, edges, m) - VlanTake(places[..i + 1], [], vlan, m) {
          ReadDropNode(nodes, edges, places[i], vlan, m);
          if m.NodeVlan? { OccursStep(places, i, m.n); }
        }
        nodes := DropOnNode(nodes, places[i], vlan);
      }
      assert places[..|places|] == places;
      ok := true;
    }

    method DropLinks(pairs: seq<Hop>, vlan: int) returns (ok: bool)
      requires forall h :: h in pairs ==> HasLink(edges, h)
      modifies this`nodes, this`edges
      ensures ok ==> Moved(old(nodes), old(edges), nodes, edges, m => -VlanTake([], pairs, vlan, m))
      ensures !ok ==> exists e :: Times(pairs, 1, e) > Read(old(nodes), old(edges), EdgeVlan(e, vlan))
    {
      ghost var edges0 := edges;
      for i := 0 to |pairs|
        invariant nodes == old(nodes) && Moved(nodes, edges0, nodes, edges, m => -VlanTake([], pairs[..i], vlan, m))
      {
        ghost var e := Pair(pairs[i].0, pairs[i].1);
        if !UsedOnLink(edges, pairs[i], vlan) {
          assert Read(nodes, edges, EdgeVlan(e, vlan)) == 0;
          TimesStep(pairs, i, 1, e);
          TimesMono(pairs, i + 1, e);
          return false;
        }
        LinkDropped(nodes, edges0, edges, pairs, i, vlan);
        edges := DropOnLink(edges, pairs[i], vlan);
      }
      assert pairs[..|pairs|] == pairs;
      ok := true;
    }

    /** Checks that the VLAN is listed in every place, then removes one entry per listed place. The
        removal itself raises when a place is listed more often than the VLAN. */
    method UnreserveVlan(places: seq<Node>, pairs: seq<Hop>, vlan: int) returns (r: Outcome)
      modifies this`nodes, this`edges
      ensures r == Done <==> Enough(old(nodes), old(edges), places, pairs, vlan)
      ensures r == Done ==> Moved(old(nodes), old(edges), nodes, edges, m => -VlanTake(places, pairs, vlan, m))
      ensures r == Refused ==> nodes == old(nodes) && edges == old(edges)
      ensures Distinct(places) && DistinctEdges(pairs) ==> r != Broken
    {
      for i := 0 to |places|
        invariant forall j :: 0 <= j < i ==> UsedOnNode(nodes, places[j], vlan)
      {
        if !UsedOnNode(nodes, places[i], vlan) {
          NotEnough(nodes, edges, places, pairs, vlan);
          return Refused;
        }
      }
      for i := 0 to |pairs|
        invariant forall j :: 0 <= j < i ==> UsedOnLink(edges, pairs[j], vlan)
      {
        if !UsedOnLink(edges, pairs[i], vlan) {
          NotEnough(nodes, edges, places, pairs, vlan);
          return Refused;
        }
      }
      ghost var nodes0, edges0 := nodes, edges;
      EnoughDistinct(nodes0, edges0, places, pairs, vlan);
      var ok := DropNodes(places, vlan);
      if !ok {
        ghost var n :| Occurs(places, n) > Read(nodes0, edges0, NodeVlan(n, vlan));
        return Broken;
      }
      ghost var nodes1, edges1 := nodes, edges;
      ok := DropLinks(pairs, vlan);
      if !ok {
        ghost var e :| Times(pairs, 1, e) > Read(nodes1, edges1, EdgeVlan(e, vlan));
        assert Read(nodes0, edges0, EdgeVlan(e, vlan)) == Read(nodes1, edges1, EdgeVlan(e, vlan));
        return Broken;
      }
      MovedBoth(nodes0, edges0, nodes1, edges1, nodes, edges,
                m => -VlanTake(places, [], vlan, m), m => -VlanTake([], pairs, vlan, m),
                m => -VlanTake(places, pairs, vlan, m));
      MovedDown(nodes0, edges0, nodes, edges, places, pairs, vlan);
      r := Done;
    }

    method GetSwitchPortNeighbor(switch: Node, port: int) returns (neighbor: Option<Node>)
      requires switch in wiring
      ensures neighbor == PortNeighbor(wiring, switch, port)
    {
      for i := 0 to |wiring[switch]|
        invariant FirstOn(wiring[switch], port) == FirstOn(wiring[switch][i..], port)
      {
        var cable := wiring[switch][i];
        assert wiring[switch][i..][1..] == wiring[switch][i + 1..];
        if cable.port == port {
          return Some(cable.neighbor);
        }
      }
      neighbor := None;
    }

    /** Reserving a port reserves the edge behind it; a port that leads nowhere needs nothing. */
    method ReserveVlanOnPort(switch: Node, port: int, vlan: int) returns (r: Outcome)
      modifies this`nodes, this`edges
      ensures r == Done <==> Fits(wiring, old(nodes), old(edges), VlanPort(switch, port, vlan))
      ensures r == Done ==>
        Moved(old(nodes), old(edges), nodes, edges, TakeOf(wiring, VlanPort(switch, port, vlan)))
      ensures r == Done || (r == Refused && nodes == old(nodes) && edges == old(edges))
    {
      if switch !in wiring { return Refused; }
      var neighbor := GetSwitchPortNeighbor(switch, port);
      if neighbor.None? { return Done; }
      assert PairsOf(wiring, VlanPort(switch, port, vlan)) == [(switch, neighbor.value)];
      r := ReserveVlan([], [(switch, neighbor.value)], vlan);
    }

    method UnreserveVlanOnPort(switch: Node, port: int, vlan: int) returns (r: Outcome)
      modifies this`nodes, this`edges
      ensures r == Done <==> Held(wiring, old(nodes), old(edges), VlanPort(switch, port, vlan))
      ensures r == Done ==>
        Moved(old(nodes), old(edges), nodes, edges, MinusTake(wiring, VlanPort(switch, port, vlan)))
      ensures r == Done || (r == Refused && nodes == old(nodes) && edges == old(edges))
    {
      if switch !in wiring { return Refused; }
      var neighbor := GetSwitchPortNeighbor(switch, port);
      if neighbor.None? { NothingOwed(nodes, edges, vlan); return Done; }
      assert PairsOf(wiring, VlanPort(switch, port, vlan)) == [(switch, neighbor.value)];
      r := UnreserveVlan([], [(switch, neighbor.value)], vlan);
    }

    method ReserveBwOnPort(switch: Node, port: int, bw: int) returns (r: Outcome)
      modifies this`nodes, this`edges
      ensures r == Done <==> Fits(wiring, old(nodes), old(edges), BandwidthPort(switch, port, bw))
      ensures r == Done ==>
        Moved(old(nodes), old(edges), nodes, edges, TakeOf(wiring, BandwidthPort(switch, port, bw)))
      ensures r == Done || (r == Refused && nodes == old(nodes) && edges == old(edges))
    {
      if switch !in wiring { return Refused; }
      var neighbor := GetSwitchPortNeighbor(switch, port);
      if neighbor.None? { return Done; }
      assert PairsOf(wiring, BandwidthPort(switch, port, bw)) == [(switch, neighbor.value)];
      r := ReserveBw([(switch, neighbor.value)], bw);
    }

    method UnreserveBwOnPort(switch: Node, port: int, bw: int) returns (r: Outcome)
      modifies this`nodes, this`edges
      ensures r == Done <==> Held(wiring, old(nodes), old(edges), BandwidthPort(switch, port, bw))
      ensures r == Done ==>
        Moved(old(nodes), old(edges), nodes, edges, MinusTake(wiring, BandwidthPort(switch, port, bw)))
      ensures r == Done || (r == Refused && nodes == old(nodes) && edges == old(edges))
    {
      if switch !in wiring { return Refused; }
      var neighbor := GetSwitchPortNeighbor(switch, port);
      if neighbor.None? { return Done; }
      assert PairsOf(wiring, BandwidthPort(switch, port, bw)) == [(switch, neighbor.value)];
      r := UnreserveBw([(switch, neighbor.value)], bw);
    }

    /** The kind of the resource says what is reserved. */
    method ReserveByKind(res: Resource) returns (r: Outcome)
      modifies this`nodes, this`edges
      ensures r == Done <==> Fits(wiring, old(nodes), old(edges), res)
      ensures r == Done ==> Moved(old(nodes), old(edges), nodes, edges, TakeOf(wiring, res))
      ensures r == Done || (r == Refused && nodes == old(nodes) && edges == old(edges))
    {
      match res
      case VlanPort(switch, port, vlan) =>
        r := ReserveVlanOnPort(switch, port, vlan);
      case VlanPath(path, vlan) =>
        assert PairsOf(wiring, res) == Hops(path) && NodesOf(res) == path;
        r := ReserveVlan(path, Hops(path), vlan);
      case VlanTree(places, pairs, vlan) =>
        assert PairsOf(wiring, res) == pairs && NodesOf(res) == places;
        r := ReserveVlan(places, pairs, vlan);
      case BandwidthPort(switch, port, bw) =>
        r := ReserveBwOnPort(switch, port, bw);
      case BandwidthPath(path, bw) =>
        assert PairsOf(wiring, res) == Hops(path);
        r := ReserveBw(Hops(path), bw);
      case BandwidthTree(_, pairs, bw) =>
        assert PairsOf(wiring, res) == pairs;
        r := ReserveBw(pairs, bw);
    }

    method ReserveResource(res: Resource) returns (r: Outcome)
      modifies this`nodes, this`edges
      ensures r == Done <==> Fits(wiring, old(nodes), old(edges), res)
      ensures r == Done ==> Moved(old(nodes), old(edges), nodes, edges, TakeOf(wiring, res))
      ensures r == Done && WellFormed(wiring, res) ==> Charged(wiring, old(nodes), old(edges), nodes, edges, res, 1)
      ensures r == Done || (r == Refused && nodes == old(nodes) && edges == old(edges))
    {
      r := ReserveByKind(res);
      if WellFormed(wiring, res) { MovedCharges(wiring, old(nodes), old(edges), nodes, edges, res); }
    }

    method UnreserveByKind(res: Resource) returns (r: Outcome)
      modifies this`nodes, this`edges
      ensures r == Done <==> Held(wiring, old(nodes), old(edges), res)
      ensures r == Done ==> Moved(old(nodes), old(edges), nodes, edges, MinusTake(wiring, res))
      ensures r == Refused ==> nodes == old(nodes) && edges == old(edges)
      ensures WellFormed(wiring, res) ==> r != Broken
    {
      match res
      case VlanPort(switch, port, vlan) =>
        r := UnreserveVlanOnPort(switch, port, vlan);
      case VlanPath(path, vlan) =>
        assert PairsOf(wiring, res) == Hops(path);
        r := UnreserveVlan(path, Hops(path), vlan);
      case VlanTree(places, pairs, vlan) =>
        assert PairsOf(wiring, res) == pairs;
        r := UnreserveVlan(places, pairs, vlan);
      case BandwidthPort(switch, port, bw) =>
        r := UnreserveBwOnPort(switch, port, bw);
      case BandwidthPath(path, bw) =>
        assert PairsOf(wiring, res) == Hops(path);
        r := UnreserveBw(Hops(path), bw);
      case BandwidthTree(_, pairs, bw) =>
        assert PairsOf(wiring, res) == pairs;
        r := UnreserveBw(pairs, bw);
    }

    method UnreserveResource(res: Resource) returns (r: Outcome)
      modifies this`nodes, this`edges
      ensures r == Done <==> Held(wiring, old(nodes), old(edges), res)
      ensures r == Done ==> Moved(old(nodes), old(edges), nodes, edges, MinusTake(wiring, res))
      ensures r == Done && WellFormed(wiring, res) ==> Charged(wiring, old(nodes), old(edges), nodes, edges, res, -1)
      ensures r == Refused ==> nodes == old(nodes) && edges == old(edges)
      ensures WellFormed(wiring, res) ==> r != Broken
    {
      r := UnreserveByKind(res);
      if WellFormed(wiring, res) { MovedCharges(wiring, old(nodes), old(edges), nodes, edges, res); }
    }

    // ----- Searching -----

    /** The two inner loops of the VLAN search on a path. */
    method VlanBlocked(path: seq<Node>, vlan: int) returns (onPath: bool)
      requires OnTopology(nodes, edges, path)
      ensures !onPath <==> ClearOnPath(nodes, edges, path, vlan)
    {
      for i := 0 to |path|
        invariant forall j :: 0 <= j < i ==> ClearOfSwitch(nodes, path[j], vlan)
      {
        if nodes[path[i]].isSwitch && vlan in nodes[path[i]].vlans {
          assert !ClearOfSwitch(nodes, path[i], vlan);
          return true;
        }
      }
      var pairs := Hops(path);
      for i := 0 to |pairs|
        invariant forall j :: 0 <= j < i ==> Offered(edges, pairs[j], vlan)
      {
        assert HasLink(edges, pairs[i]);
        var link := edges[Pair(pairs[i].0, pairs[i].1)];
        if vlan in link.vlans {
          assert !Offered(edges, pairs[i], vlan);
          return true;
        }
        if vlan !in link.available {
          assert !Offered(edges, pairs[i], vlan);
          return true;
        }
      }
      onPath := false;
    }

    /** The least VLAN in 1..4088 that nothing on the path uses and every edge offers. */
    method FindVlanOnPath(path: seq<Node>) returns (selected: Option<int>)
      requires OnTopology(nodes, edges, path)
      ensures selected.Some? ==> 1 <= selected.value <= 4088 && FreeAlong(nodes, edges, path, selected.value)
      ensures selected.Some? ==> ClearOnPath(nodes, edges, path, selected.value)
      ensures forall v :: 1 <= v <= 4088 && (selected.Some? ==> v < selected.value) ==>
              !ClearOnPath(nodes, edges, path, v)
    {
      for vlan := 1 to VLAN_LIMIT
        invariant forall v :: 1 <= v < vlan ==> !ClearOnPath(nodes, edges, path, v)
      {
        var onPath := VlanBlocked(path, vlan);
        if !onPath {
          ClearIsFree(nodes, edges, path, vlan);
          return Some(vlan);
        }
      }
      selected := None;
    }

    method VlanBlockedOnTree(tree: Graph, vlan: int) returns (onTree: bool)
      requires tree.nodes <= nodes.Keys && tree.edges <= edges.Keys
      ensures !onTree <==> ClearOnTree(nodes, edges, tree.nodes, tree.edges, vlan)
    {
      var places := tree.nodes;
      while places != {}
        invariant places <= tree.nodes && forall n :: n in tree.nodes - places ==> ClearOfSwitch(nodes, n, vlan)
        decreases places
      {
        var n :| n in places;
        if nodes[n].isSwitch && vlan in nodes[n].vlans {
          return true;
        }
        places := places - {n};
      }
      var todo := tree.edges;
      while todo != {}
        invariant todo <= tree.edges && forall e :: e in tree.edges - todo ==> vlan !in edges[e].vlans
        decreases todo
      {
        var e :| e in todo;
        if vlan in edges[e].vlans {
          return true;
        }
        todo := todo - {e};
      }
      onTree := false;
    }

    /** The tree version does not ask whether the edges offer the VLAN. */
    method FindVlanOnTree(tree: Graph) returns (selected: Option<int>)
      requires tree.nodes <= nodes.Keys && tree.edges <= edges.Keys
      ensures selected.Some? ==>
        1 <= selected.value <= 4088 && ClearOnTree(nodes, edges, tree.nodes, tree.edges, selected.value)
      ensures forall v :: 1 <= v <= 4088 && (selected.Some? ==> v < selected.value) ==>
        !ClearOnTree(nodes, edges, tree.nodes, tree.edges, v)
    {
      for vlan := 1 to VLAN_LIMIT
        invariant forall v :: 1 <= v < vlan ==> !ClearOnTree(nodes, edges, tree.nodes, tree.edges, v)
      {
        var onTree := VlanBlockedOnTree(tree, vlan);
        if !onTree {
          return Some(vlan);
        }
      }
      selected := None;
    }

    /** The first candidate with a free VLAN and enough bandwidth; `candidates` are the shortest paths. */
    method FindValidPath(candidates: seq<seq<Node>>, bw: int, ignoreEndpoints: bool) returns (found: Option<seq<Node>>)
      requires forall p :: p in candidates ==> OnTopology(nodes, edges, Considered(p, ignoreEndpoints))
      ensures found.Some? ==>
              exists i :: 0 <= i < |candidates| && FirstUsable(nodes, edges, candidates, ignoreEndpoints, bw, i)
                                          && found.value == Considered(candidates[i], ignoreEndpoints)
      ensures found.None? ==> forall p :: p in candidates ==> !Usable(nodes, edges, Considered(p, ignoreEndpoints), bw)
    {
      for i := 0 to |candidates|
        invariant forall j :: 0 <= j < i ==> !Usable(nodes, edges, Considered(candidates[j], ignoreEndpoints), bw)
      {
        var path := Considered(candidates[i], ignoreEndpoints);
        var vlan := FindVlanOnPath(path);
        if vlan == None {
          continue;
        }
        assert ClearOnPath(nodes, edges, path, vlan.value);
        var enough := true;
        var pairs := Hops(path);
        for k := 0 to |pairs|
          invariant enough && forall j :: 0 <= j < k ==> RoomForBw(edges, pairs[j], bw)
        {
          assert HasLink(edges, pairs[k]);
          if !RoomForBw(edges, pairs[k], bw) {
            enough := false;
            break;
          }
        }
        if enough {
          assert FirstUsable(nodes, edges, candidates, ignoreEndpoints, bw, i);
          return Some(path);
        }
      }
      found := None;
    }

    function AsGraph(): Topo
      reads this
    {
      Topo(nodes.Keys, map e | e in edges :: edges[e].weight)
    }

    /** The loop over the edges of a tree: the first without enough bandwidth is deleted. */
    method DropInsufficient(tree: Graph, bw: Option<int>, ghost edges0: Links, ghost wiring0: Wiring)
      returns (enough: bool)
      requires tree.edges <= edges.Keys && Trimmed(edges0, wiring0, edges, wiring, bw)
      modifies this`edges, this`wiring
      ensures enough ==> wiring == old(wiring) && edges == old(edges)
      ensures enough <==> Accepting(old(edges), tree.edges, bw)
      ensures !enough ==> exists e :: e in tree.edges && !Accepting(old(edges), {e}, bw) && edges == old(edges) - {e}
                                      && wiring == Unplugged(old(wiring), {e})
      ensures !enough ==> |edges| == |old(edges)| - 1 && Trimmed(edges0, wiring0, edges, wiring, bw)
    {
      enough := true;
      var todo := tree.edges;
      while todo != {}
        invariant todo <= tree.edges && enough && edges == old(edges) && wiring == old(wiring)
        invariant forall e :: e in tree.edges - todo ==> Sufficient(edges[e], bw)
        decreases todo
      {
        var e :| e in todo;
        todo := todo - {e};
        if !Sufficient(edges[e], bw) {
          enough := false;
          TrimOne(edges0, wiring0, edges, wiring, bw, e);
          assert !Accepting(edges, {e}, bw);
          edges := edges - {e};
          wiring := Unplugged(wiring, {e});
          break;
        }
      }
    }

    /** Searches for a Steiner tree, deleting one edge without enough bandwidth per failed attempt. The
        deletions are real: they change the topology. Only edges without enough bandwidth are lost; a
        tree is found exactly if the vertices are joined by edges that have enough; and it weighs at
        most twice any other way to join them by such edges. */
    method FindValidSteinerTree(voi: seq<Node>, bw: Option<int>, dijkstra: PathFinder) returns (r: Search)
      requires FindsShortest(dijkstra) && Distinct(voi) && Within(nodes.Keys, edges.Keys)
      modifies this`edges, this`wiring
      ensures nodes == old(nodes) && edges.Keys <= old(edges).Keys
      ensures forall e :: e in edges ==> edges[e] == old(edges)[e]
      ensures wiring == Unplugged(old(wiring), old(edges).Keys - edges.Keys)
      ensures forall e :: e in old(edges) && e !in edges ==>
        bw.Some? && old(edges)[e].bwInUse + bw.value > old(edges)[e].weight
      ensures r.Raised? <==> !(ToSet(voi) <= nodes.Keys) && |old(edges)| > 0
      ensures r.Grown? ==>
              ToSet(voi) <= r.tree.nodes <= nodes.Keys && (|voi| > 0 ==> IsTree(r.tree.nodes, r.tree.edges))
      ensures r.Grown? ==> Within(r.tree.nodes, r.tree.edges)
      ensures r.Grown? ==> Accepting(edges, r.tree.edges, bw)
      ensures |voi| > 1 && ToSet(voi) <= nodes.Keys ==>
        (r.Grown? <==> Joinable(old(edges), ToSet(voi), bw))
      ensures |voi| <= 1 && ToSet(voi) <= nodes.Keys ==> (r.Grown? <==> |old(edges)| > 0)
      ensures r.NotFound? && |voi| > 1 ==> !Connected(ToSet(voi), edges.Keys)
      ensures r.Grown? ==> WithinTwice(old(edges), bw, ToSet(voi), r.tree.edges, old(AsGraph().weight))
    {
      ghost var edges0, wiring0 := edges, wiring;
      TrimNone(edges, wiring, bw);
      var timeout := |edges|;
      while timeout > 0
        invariant |edges| == timeout && nodes == old(nodes)
        invariant Trimmed(edges0, wiring0, edges, wiring, bw)
        invariant edges != edges0 ==> |voi| > 1 && ToSet(voi) <= nodes.Keys
        decreases timeout
      {
        timeout := timeout - 1;
        var attempt := MakeSteinerTree(AsGraph(), voi, dijkstra);
        if attempt.MissingVertex? {
          return Raised;
        }
        if attempt.Unreachable? {
          StillApart(edges0, edges, bw, ToSet(voi), AsGraph());
          return NotFound;
        }
        var tree := attempt.tree;
        var enough := DropInsufficient(tree, bw, edges0, wiring0);
        if !enough {
          continue;
        }
        GrownJoins(edges0, edges, bw, ToSet(voi), tree.nodes, tree.edges);
        GrownWithinTwice(edges0, edges, bw, ToSet(voi), tree.edges, AsGraph(), old(AsGraph().weight));
        return Grown(tree);
      }
      if |voi| > 1 { ApartAtLast(edges0, edges, bw, voi); }
      r := NotFound;
    }
  }

  // ----- A search that takes an edge from under an active rule -----

  /** Edge s-t is full: its weight is 10, and a rule has reserved bandwidth 10 on it and VLAN 5 along it. */
  function FullNodes(s: Node, t: Node): Nodes {
    map[s := NodeInfo(true, [5]), t := NodeInfo(true, [5])]
  }

  function FullEdge(s: Node, t: Node): Links {
    map[Pair(s, t) := Link(10, 10, [5], [5])]
  }

  lemma FullHeld(w: Wiring, s: Node, t: Node)
    requires s != t
    ensures Held(w, FullNodes(s, t), FullEdge(s, t), BandwidthPath([s, t], 10))
    ensures Held(w, FullNodes(s, t), FullEdge(s, t), VlanPath([s, t], 5))
  {
    assert Hops([s, t]) == [(s, t)];
    EnoughDistinct(FullNodes(s, t), FullEdge(s, t), [s, t], [(s, t)], 5);
  }

  /** Somebody then asks for a tree between s and t with bandwidth 1. There is none, and asking has deleted the edge:
      what the rule holds there can no longer be given back. */
  method SearchTakesActive(s: Node, t: Node, dijkstra: PathFinder) returns (tm: TopologyManager, r: Search)
    requires s != t && FindsShortest(dijkstra)
    ensures r.NotFound? && tm.edges == map[] && tm.wiring == map[s := [], t := []]
    ensures var w := map[s := [Cable(t, 1)], t := [Cable(s, 1)]];
            && Held(w, FullNodes(s, t), FullEdge(s, t), BandwidthPath([s, t], 10))
            && Held(w, FullNodes(s, t), FullEdge(s, t), VlanPath([s, t], 5))
            && !Held(tm.wiring, tm.nodes, tm.edges, BandwidthPath([s, t], 10))
            && !Held(tm.wiring, tm.nodes, tm.edges, VlanPath([s, t], 5))
  {
    var wiring := map[s := [Cable(t, 1)], t := [Cable(s, 1)]];
    var nodes, edges := FullNodes(s, t), FullEdge(s, t);
    tm := new TopologyManager(wiring, nodes, edges);
    FullApart(s, t);
    FullHeld(wiring, s, t);
    r := tm.FindValidSteinerTree([s, t], Some(1), dijkstra);
    FullGone(s, t, wiring, tm.wiring, tm.edges);
  }

  lemma FullApart(s: Node, t: Node)
    requires s != t
    ensures !Joinable(FullEdge(s, t), ToSet([s, t]), Some(1))
    ensures Distinct([s, t]) && ToSet([s, t]) == FullNodes(s, t).Keys && |FullEdge(s, t)| == 1
    ensures Within(FullNodes(s, t).Keys, FullEdge(s, t).Keys)
  {
    assert SufficientEdges(FullEdge(s, t), Some(1)) == {};
    ApartWithoutEdges([s, t]);
    JoinableIff(FullEdge(s, t), ToSet([s, t]), Some(1));
    assert EdgeOf(FullNodes(s, t).Keys, Pair(s, t));
  }

  lemma FullGone(s: Node, t: Node, w: Wiring, w': Wiring, edges: Links)
    requires s != t && w == map[s := [Cable(t, 1)], t := [Cable(s, 1)]]
    requires Pruned(FullEdge(s, t), edges, Some(1)) && !Connected(ToSet([s, t]), edges.Keys)
    requires w' == Unplugged(w, FullEdge(s, t).Keys - edges.Keys)
    ensures edges == map[] && w' == map[s := [], t := []]
    ensures !Held(w', FullNodes(s, t), edges, BandwidthPath([s, t], 10))
    ensures !Held(w', FullNodes(s, t), edges, VlanPath([s, t], 5))
  {
    if Pair(s, t) in edges {
      ConnStep(edges.Keys, s, t);
      ConnStep(edges.Keys, t, s);
      ConnRefl(edges.Keys, s);
      ConnRefl(edges.Keys, t);
      assert false;
    }
    assert edges == map[] && Pair(s, t) == Pair(t, s);
    assert FullEdge(s, t).Keys - edges.Keys == {Pair(s, t)};
    assert Plugged(s, w[s], {Pair(s, t)}) == [] && Plugged(t, w[t], {Pair(s, t)}) == [];
    FullHeld(w, s, t);
    assert Pair(s, t) !in edges && !HasLink(edges, (s, t));
    assert Hops([s, t]) == [(s, t)];
    assert (s, t) in PairsOf(w, BandwidthPath([s, t], 10)) && (s, t) in PairsOf(w, VlanPath([s, t], 5));
    HeldAfterSearch(w, FullNodes(s, t), FullEdge(s, t), edges, Some(1), BandwidthPath([s, t], 10));
    HeldAfterSearch(w, FullNodes(s, t), FullEdge(s, t), edges, Some(1), VlanPath([s, t], 5));
  }
}
