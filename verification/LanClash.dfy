/** A LAN and a tunnel that are both active, with the books in order, and that do clash: the second endpoint of the LAN
    is not reserved, so the tunnel could take it, and the tunnel gets the LAN's frames. */
module LanClash {
  import opened Basics
  import opened Graphs
  import opened PathResources
  import opened TopologyManagers
  import opened RuleManagers
  import opened OpenFlow
  import opened RyuTranslate
  import opened L2Tunnels
  import opened TunnelIsolation
  import opened TunnelDelivery
  import opened L2Multipoints
  import opened MultipointFlows
  import opened Flooding
  import opened Coexistence
  import Prim
  import E = EdgePorts

  /** One switch, with a host behind its port 2. */
  function HostOn(a: Node, h: Node): Wiring {
    map[a := [Cable(h, 2)]]
  }

  /** The LAN joins two ports of the switch; `own` are its flows there. */
  ghost function TwoPorts(a: Node, h: Node, own: seq<Flow>): LaidLan {
    LaidLan(Lan(HostOn(a, h), {a}, {}, [], [Endpoint(a, 1, 10), Endpoint(a, 2, 20)], 1, 0), [a], _ => 1,
            u => if u == a then own else [])
  }

  /** The tunnel leads from the second of them to a third. */
  function Taker(a: Node): Laid {
    Laid(Tunnel(a, 2, 20, a, 3, 30, 0), [a], 2, 2)
  }

  ghost function ClashTable(a: Node, h: Node, own: seq<Flow>): Table {
    [Record(1, Active, None, None, LanResources(TwoPorts(a, h, own))),
     Record(2, Active, None, None, TunnelResources(Taker(a).t, [a], 2))]
  }

  function ClashNodes(a: Node): Nodes {
    map[a := NodeInfo(true, [1, 2])]
  }

  function ClashEdges(a: Node, h: Node): Links {
    map[Pair(a, h) := Link(10, 0, [20], [])]
  }

  lemma HostPorts(a: Node, h: Node)
    ensures PortNeighbor(HostOn(a, h), a, 2) == Some(h)
    ensures forall p :: p != 2 ==> PortNeighbor(HostOn(a, h), a, p) == None
  {
    var cables := [Cable(h, 2)];
    assert HostOn(a, h)[a] == cables && cables[1..] == [];
    forall p | p != 2 ensures FirstOn(cables, p) == None { assert FirstOn(cables[1..], p) == None; }
  }

  lemma LanList(a: Node, h: Node, own: seq<Flow>)
    ensures LanResources(TwoPorts(a, h, own))
         == [VlanTree([a], [], 1), BandwidthTree([a], [], 0), VlanPort(a, 1, 10), BandwidthPort(a, 1, 0)]
  {
    var e, e' := Endpoint(a, 1, 10), Endpoint(a, 2, 20);
    assert [e, e'][..1] == [e] && [e][..0] == [];
    assert [e][0].switch == a && OnSwitch([e], a);
    assert Firsts([e]) == [e] && Firsts([e, e']) == [e];
    assert PortResources([e], 0) == [] + [VlanPort(a, 1, 10), BandwidthPort(a, 1, 0)];
  }

  /** What the two rules hold on every meter, and that it is all there. */
  lemma LanHolds(a: Node, h: Node, own: seq<Flow>, m: Meter)
    ensures Sum(HostOn(a, h), LanResources(TwoPorts(a, h, own)), m) == if m == NodeVlan(a, 1) then 1 else 0
  {
    var w, rs := HostOn(a, h), LanResources(TwoPorts(a, h, own));
    LanList(a, h, own);
    HostPorts(a, h);
    assert rs == [rs[0]] + rs[1..];
    SumAppend(w, [rs[0]], rs[1..], m);
    SumOne(w, rs[0], m);
    OccursOne(a, m);
    forall r | r in rs[1..] ensures Idle(w, r) && WellFormed(w, r) {
      assert PairsOf(w, r) == [];
    }
    IdleSum(w, rs[1..], m);
  }

  lemma TunnelHolds(a: Node, h: Node, m: Meter)
    ensures Sum(HostOn(a, h), TunnelResources(Taker(a).t, [a], 2), m)
         == if m == NodeVlan(a, 2) || m == EdgeVlan(Pair(a, h), 20) then 1 else 0
  {
    var w, rs := HostOn(a, h), TunnelResources(Taker(a).t, [a], 2);
    HostPorts(a, h);
    assert rs == [rs[0]] + [rs[1]] + rs[2..];
    SumAppend(w, [rs[0]] + [rs[1]], rs[2..], m);
    SumAppend(w, [rs[0]], [rs[1]], m);
    SumOne(w, rs[0], m);
    SumOne(w, rs[1], m);
    OccursOne(a, m);
    assert PairsOf(w, rs[1]) == [(a, h)];
    if m.EdgeVlan? { OneCrossing(a, h, 1, m.e); }
    forall r | r in rs[2..] ensures Idle(w, r) && WellFormed(w, r) {
      TakerIdle(a, h, r);
    }
    IdleSum(w, rs[2..], m);
  }

  lemma TakerIdle(a: Node, h: Node, r: Resource)
    requires r in TunnelResources(Taker(a).t, [a], 2)[2..]
    ensures Idle(HostOn(a, h), r) && WellFormed(HostOn(a, h), r)
  {
    HostPorts(a, h);
    if r.OnPort() { PortFormed(HostOn(a, h), r); }
  }

  lemma ClashFormed(a: Node, h: Node, own: seq<Flow>)
    requires a != h
    ensures WiringOk(HostOn(a, h)) && LaidOk(HostOn(a, h), Taker(a))
    ensures forall r :: r in ClashTable(a, h, own) ==> RowOk(HostOn(a, h), r, 2)
  {
    var m := TwoPorts(a, h, own);
    assert CablesOk(HostOn(a, h), a);
    TunnelFormed(HostOn(a, h), Taker(a).t, [a], 2);
    MultipointFormed(HostOn(a, h), m.lan.endpoints, [a], [], 1, 0);
  }

  lemma ClashPlaced(a: Node, h: Node, own: seq<Flow>, x: Resource)
    requires x in LanResources(TwoPorts(a, h, own)) + TunnelResources(Taker(a).t, [a], 2)
    ensures Placed(HostOn(a, h), ClashNodes(a), ClashEdges(a, h), x)
  {
    LanList(a, h, own);
    HostPorts(a, h);
    assert PairsOf(HostOn(a, h), x) == [] || PairsOf(HostOn(a, h), x) == [(a, h)];
  }

  function Shown(a: Node, h: Node, m: Meter): int {
    if m == NodeVlan(a, 1) || m == NodeVlan(a, 2) || m == EdgeVlan(Pair(a, h), 20) then 1 else 0
  }

  /** The meters show just that. */
  lemma ClashRead(a: Node, h: Node, m: Meter)
    ensures Read(ClashNodes(a), ClashEdges(a, h), m) == Shown(a, h, m)
  {
    match m
    case Bw(e) =>
    case EdgeVlan(e, v) => assert multiset([20])[v] == if v == 20 then 1 else 0;
    case NodeVlan(n, v) => assert multiset([1, 2])[v] == if v == 1 || v == 2 then 1 else 0;
  }

  lemma ClashSum(a: Node, h: Node, own: seq<Flow>, m: Meter)
    ensures Sum(HostOn(a, h), ActiveResources(ClashTable(a, h, own)), m) == Shown(a, h, m)
  {
    var table := ClashTable(a, h, own);
    TwoRows(table[0], table[1]);
    LanHolds(a, h, own, m);
    TunnelHolds(a, h, m);
    SumAppend(HostOn(a, h), table[0].resources, table[1].resources, m);
  }

  lemma ClashBalance(a: Node, h: Node, own: seq<Flow>)
    ensures Tidy(ClashNodes(a), ClashEdges(a, h))
    ensures Balanced(HostOn(a, h), ClashNodes(a), ClashEdges(a, h), ClashTable(a, h, own), [], [])
  {
    forall m ensures Read(ClashNodes(a), ClashEdges(a, h), m) == Shown(a, h, m)
                  == Sum(HostOn(a, h), ActiveResources(ClashTable(a, h, own)), m) {
      ClashRead(a, h, m);
      ClashSum(a, h, own, m);
    }
  }

  lemma ClashBooks(a: Node, h: Node, own: seq<Flow>)
    requires a != h
    ensures BooksOk(HostOn(a, h), ClashNodes(a), ClashEdges(a, h), ClashTable(a, h, own), 2, [], [])
  {
    var table := ClashTable(a, h, own);
    ClashFormed(a, h, own);
    ClashBalance(a, h, own);
    TwoRows(table[0], table[1]);
    forall x | x in ActiveResources(table) ensures Placed(HostOn(a, h), ClashNodes(a), ClashEdges(a, h), x) {
      ClashPlaced(a, h, own, x);
    }
  }

  lemma TwoPortsOk(a: Node, h: Node, own: seq<Flow>)
    requires a != h && EndpointFlows(own, 1, [], [(1, 10), (2, 20)], 1)
    ensures LaidLanOk(HostOn(a, h), TwoPorts(a, h, own))
  {
    var w, m := HostOn(a, h), TwoPorts(a, h, own);
    var lan := m.lan;
    ClashFormed(a, h, own);
    HostPorts(a, h);
    Prim.SingleNodeTree(a);
    forall i | 0 <= i < |lan.endpoints| ensures EdgePort(lan, lan.endpoints[i]) {
      assert Across(w, a, lan.endpoints[i].port) == None;
    }
    assert ToSet([a]) == {a};
    TwoPortsRule(a, h, own);
  }

  lemma TwoPortsRule(a: Node, h: Node, own: seq<Flow>)
    requires Wired(HostOn(a, h), [])
    ensures Rule(TwoPorts(a, h, own).lan, a) == EndpointRule(a, [], [(1, 10), (2, 20)], 1, 0)
  {
    var e, e' := Endpoint(a, 1, 10), Endpoint(a, 2, 20);
    assert [e, e'][..1] == [e] && [e][..0] == [] && [e, e'][0].switch == a;
    assert PortsAt([e], a) == [] + [(1, 10)];
    assert PortsAt([e, e'], a) == [(1, 10)] + [(2, 20)];
    assert Around([], a) == [];
  }

  /** The LAN's second endpoint is an open end of it, and an end of the tunnel. */
  lemma TakerMeets(a: Node, h: Node, own: seq<Flow>)
    ensures MeetsTunnel(HostOn(a, h), TwoPorts(a, h, own), Taker(a), Endpoint(a, 2, 20))
  {
    var m, e := TwoPorts(a, h, own), Endpoint(a, 2, 20);
    LanList(a, h, own);
    assert m.lan.endpoints[1] == e;
    assert End(Taker(a).t, false) == Key(a, 2, 20);
  }

  /** The books are in order, and the LAN and the tunnel are active. */
  ghost predicate BothActive(a: Node, h: Node, own: seq<Flow>) {
    var w, table := HostOn(a, h), ClashTable(a, h, own);
    && WiringOk(w) && BooksOk(w, ClashNodes(a), ClashEdges(a, h), table, 2, [], [])
    && LansActive(w, table, [TwoPorts(a, h, own)], [0]) && AllActive(w, table, [Taker(a)], [1])
  }

  lemma ClashActive(a: Node, h: Node, own: seq<Flow>)
    requires a != h && EndpointFlows(own, 1, [], [(1, 10), (2, 20)], 1)
    ensures BothActive(a, h, own)
  {
    ClashFormed(a, h, own);
    ClashBooks(a, h, own);
    TwoPortsOk(a, h, own);
    assert LanActive(HostOn(a, h), ClashTable(a, h, own), [TwoPorts(a, h, own)], [0], 0);
  }

  lemma TakerTakes(a: Node, h: Node, own: seq<Flow>, bases: Tables, inner: seq<int>, dst: int)
    requires a != h && forall u {:trigger bases(u)} :: E.Common(HostOn(a, h), u, bases(u))
    requires BothActive(a, h, own)
    ensures var m := TwoPorts(a, h, own);
            !Floods(m.lan, Deployed(HostOn(a, h), bases, [m], [Taker(a)]), Endpoint(a, 2, 20), inner, dst)
  {
    var w, m, l, table := HostOn(a, h), TwoPorts(a, h, own), Taker(a), ClashTable(a, h, own);
    var below, f := BelowTunnels(bases, [m]), Frame(2, [20] + inner, dst);
    var tables := Deployed(w, bases, [m], [l]);
    forall u ensures Modest(below(u)) {
      assert E.Common(w, u, bases(u));
      BelowModest(w, table, [m], [0], bases, u);
    }
    ModestHosts(w, [l], below, 0);
    TakerApart(a, h);
    assert f.tags[1..] == inner;
    SlotForwards(w, [l], tables, 0, SrcIn, f);
    assert Process(tables(a), L2TUNNEL_TABLE, f) == [Out(3, [30] + inner)];
    HostPorts(a, h);
    OneOut(w, Pipelines(tables), a, f, 3, [30] + inner);
    TakerDue(a, inner);
  }

  lemma TakerApart(a: Node, h: Node)
    requires LaidOk(HostOn(a, h), Taker(a))
    ensures AllLaid(HostOn(a, h), [Taker(a)]) && Apart(HostOn(a, h), [Taker(a)])
  {
  }

  /** A single copy that leaves the network is all that becomes of the frame. */
  lemma OneOut(w: Wiring, net: (Node, Frame) -> seq<Out>, u: Node, f: Frame, port: int, tags: seq<int>)
    requires u in w && net(u, f) == [Out(port, tags)] && Across(w, u, port) == None && port != OFPP_CONTROLLER
    ensures Flood(w, net, u, f, 0) == Spread(multiset{Delivery(u, port, tags)}, multiset{})
  {
    var outs := [Out(port, tags)];
    assert outs[..0] == [];
    assert FloodOuts(w, net, u, outs[..0], f.dst, 0) == Spread(multiset{}, multiset{});
  }

  lemma TakerDue(a: Node, inner: seq<int>)
    ensures Delivery(a, 3, [30] + inner) !in DueElsewhere([Endpoint(a, 1, 10), Endpoint(a, 2, 20)], a, 2, inner)
  {
    var e, e' := Endpoint(a, 1, 10), Endpoint(a, 2, 20);
    assert [e, e'][..1] == [e] && [e][..0] == [];
    assert DueElsewhere([e], a, 2, inner) == multiset{} + multiset{CopyFor(e, inner)};
  }

  /** Both are active, on a switch with the common flows. A frame from that endpoint leaves through the tunnel, and
      the LAN's first endpoint gets nothing. */
  method ClashShows(a: Node, h: Node, ghost bases: Tables, ghost inner: seq<int>, ghost dst: int)
    returns (own: seq<Flow>)
    requires a != h && forall u {:trigger bases(u)} :: E.Common(HostOn(a, h), u, bases(u))
    ensures BothActive(a, h, own) && MeetsTunnel(HostOn(a, h), TwoPorts(a, h, own), Taker(a), Endpoint(a, 2, 20))
    ensures var m := TwoPorts(a, h, own);
            !Floods(m.lan, Deployed(HostOn(a, h), bases, [m], [Taker(a)]), Endpoint(a, 2, 20), inner, dst)
  {
    own := TranslateEndpointRule(1, [], [(1, 10), (2, 20)], 1);
    ClashActive(a, h, own);
    TakerMeets(a, h, own);
    TakerTakes(a, h, own, bases, inner, dst);
  }
}
