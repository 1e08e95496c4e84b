/** Multipoint LANs: the tree of switches that joins all endpoints, the resources it takes, and the rule
    each switch of the tree gets. */
module L2Multipoints {
  import opened Basics
  import opened Graphs
  import opened PathResources
  import opened SteinerTree
  import opened TopologyManagers
  import opened OpenFlow

  datatype Endpoint = Endpoint(switch: Node, port: int, vlan: int)

  datatype MultipointRule =
    | EndpointRule(switch: Node, flooding: seq<int>, endpoints: seq<(int, int)>, iv: int, bandwidth: int)
    | FloodRule(switch: Node, flooding: seq<int>, iv: int)

  // ----- Endpoints by switch -----

  predicate OnSwitch(endpoints: seq<Endpoint>, u: Node) {
    exists i :: 0 <= i < |endpoints| && endpoints[i].switch == u
  }

  /** The first endpoint listed on each switch. */
  function Firsts(endpoints: seq<Endpoint>): seq<Endpoint> {
    if endpoints == [] then [] else
      var front, last := endpoints[..|endpoints| - 1], endpoints[|endpoints| - 1];
      Firsts(front) + if OnSwitch(front, last.switch) then [] else [last]
  }

  function Switches(firsts: seq<Endpoint>): (r: seq<Node>)
    ensures |r| == |firsts| && forall i :: 0 <= i < |r| ==> r[i] == firsts[i].switch
  {
    seq(|firsts|, i requires 0 <= i < |firsts| => firsts[i].switch)
  }

  lemma {:induction false} FirstsCover(endpoints: seq<Endpoint>)
    ensures Distinct(Switches(Firsts(endpoints)))
    ensures forall u :: u in Switches(Firsts(endpoints)) <==> OnSwitch(endpoints, u)
    decreases |endpoints|
  {
    if endpoints != [] {
      var front, last := endpoints[..|endpoints| - 1], endpoints[|endpoints| - 1];
      assert endpoints == front + [last];
      FirstsCover(front);
      var before, after := Switches(Firsts(front)), Switches(Firsts(endpoints));
      assert after == before + if OnSwitch(front, last.switch) then [] else [last.switch];
      forall u ensures u in after <==> OnSwitch(endpoints, u) {
        if i :| 0 <= i < |endpoints| && endpoints[i].switch == u {
          if i < |front| { assert front[i].switch == u; }
        }
        if u == last.switch { assert endpoints[|front|].switch == u; }
        if i :| 0 <= i < |front| && front[i].switch == u { assert endpoints[i].switch == u; }
      }
    }
  }

  lemma FirstsCoverAt(endpoints: seq<Endpoint>, u: Node)
    ensures u in Switches(Firsts(endpoints)) <==> OnSwitch(endpoints, u)
  {
    FirstsCover(endpoints);
  }

  /** The ports and VLANs of the endpoints on a switch. */
  function PortsAt(endpoints: seq<Endpoint>, u: Node): seq<(int, int)> {
    if endpoints == [] then [] else
      var last := endpoints[|endpoints| - 1];
      PortsAt(endpoints[..|endpoints| - 1], u) + if last.switch == u then [(last.port, last.vlan)] else []
  }

  predicate IsEndpointPort(endpoints: seq<Endpoint>, u: Node, port: int) {
    exists i :: 0 <= i < |endpoints| && endpoints[i].switch == u && endpoints[i].port == port
  }

  // ----- The tree as a list -----

  /** Every edge joins two switches. */
  ghost predicate Wired(w: Wiring, edges: seq<Hop>) {
    forall i :: 0 <= i < |edges| ==> Linked(w, edges[i].0, edges[i].1) && Linked(w, edges[i].1, edges[i].0)
  }

  /** The neighbours of u, in the order the edges are listed. */
  function Around(edges: seq<Hop>, u: Node): seq<Node> {
    if edges == [] then [] else
      var (a, b) := edges[|edges| - 1];
      Around(edges[..|edges| - 1], u) + if a == u then [b] else if b == u then [a] else []
  }

  lemma {:induction false} AroundLinked(w: Wiring, edges: seq<Hop>, u: Node)
    requires Wired(w, edges)
    ensures forall v :: v in Around(edges, u) ==> Linked(w, u, v) && Linked(w, v, u)
    decreases |edges|
  {
    if edges != [] { AroundLinked(w, edges[..|edges| - 1], u); }
  }

  ghost predicate AllLinked(w: Wiring, u: Node, vs: seq<Node>) {
    forall i :: 0 <= i < |vs| ==> Linked(w, u, vs[i])
  }

  /** The port of u towards each of its neighbours. */
  function PortsTo(w: Wiring, u: Node, vs: seq<Node>): (r: seq<int>)
    requires AllLinked(w, u, vs)
    ensures |r| == |vs| && forall i :: 0 <= i < |r| ==> r[i] == PortTo(w, u, vs[i])
  {
    seq(|vs|, i requires 0 <= i < |vs| => PortTo(w, u, vs[i]))
  }

  function NotEndpoints(endpoints: seq<Endpoint>, u: Node, ports: seq<int>): seq<int> {
    if ports == [] then [] else
      var last := ports[|ports| - 1];
      NotEndpoints(endpoints, u, ports[..|ports| - 1]) + if IsEndpointPort(endpoints, u, last) then [] else [last]
  }

  /** The ports left are those that no endpoint on the switch uses. */
  lemma {:induction false} NotEndpointsAre(endpoints: seq<Endpoint>, u: Node, ports: seq<int>, p: int)
    ensures p in NotEndpoints(endpoints, u, ports)
       <==> p in ports && forall e :: e in endpoints && e.switch == u ==> e.port != p
    decreases |ports|
  {
    if ports != [] {
      var front, last := ports[..|ports| - 1], ports[|ports| - 1];
      assert ports == front + [last];
      NotEndpointsAre(endpoints, u, front, p);
      if e :| e in endpoints && e.switch == u && e.port == last {
        var i :| 0 <= i < |endpoints| && endpoints[i] == e;
        assert IsEndpointPort(endpoints, u, last);
      }
    }
  }

  /** The rule for a switch of the tree. */
  ghost function RuleFor(w: Wiring, endpoints: seq<Endpoint>, edges: seq<Hop>, u: Node, iv: int,
                         bw: int): MultipointRule
    requires Wired(w, edges)
  {
    AroundLinked(w, edges, u);
    var ports := PortsTo(w, u, Around(edges, u));
    if OnSwitch(endpoints, u) then EndpointRule(u, NotEndpoints(endpoints, u, ports), PortsAt(endpoints, u), iv, bw)
    else FloodRule(u, ports, iv)
  }

  ghost predicate HasRule(w: Wiring, endpoints: seq<Endpoint>, edges: seq<Hop>, iv: int, bw: int, us: seq<Node>,
                          rules: seq<MultipointRule>, i: int)
    requires Wired(w, edges)
  {
    0 <= i < |us| && i < |rules| && rules[i] == RuleFor(w, endpoints, edges, us[i], iv, bw)
  }

  /** Each switch of the list has its rule, in order. */
  ghost predicate RulesFor(w: Wiring, endpoints: seq<Endpoint>, edges: seq<Hop>, iv: int, bw: int, us: seq<Node>,
                           rules: seq<MultipointRule>)
    requires Wired(w, edges)
  {
    |rules| == |us| && forall i {:trigger HasRule(w, endpoints, edges, iv, bw, us, rules, i)} :: 0 <= i < |us| ==>
      HasRule(w, endpoints, edges, iv, bw, us, rules, i)
  }

  /** Every rule of the LAN carries its VLAN and, where there are endpoints, its bandwidth. */
  lemma RulesCarry(w: Wiring, endpoints: seq<Endpoint>, edges: seq<Hop>, iv: int, bw: int, us: seq<Node>,
                   rules: seq<MultipointRule>, i: nat)
    requires Wired(w, edges) && RulesFor(w, endpoints, edges, iv, bw, us, rules) && i < |rules|
    ensures rules[i].switch == us[i] && rules[i].iv == iv && (rules[i].EndpointRule? ==> rules[i].bandwidth == bw)
    ensures rules[i].EndpointRule? <==> exists e :: e in endpoints && e.switch == us[i]
  {
    assert HasRule(w, endpoints, edges, iv, bw, us, rules, i);
    if k :| 0 <= k < |endpoints| && endpoints[k].switch == us[i] { assert endpoints[k] in endpoints; }
    if e :| e in endpoints && e.switch == us[i] {
      var k :| 0 <= k < |endpoints| && endpoints[k] == e;
      assert OnSwitch(endpoints, us[i]);
    }
  }

  lemma OneMoreRule(w: Wiring, endpoints: seq<Endpoint>, edges: seq<Hop>, iv: int, bw: int, us: seq<Node>,
                    rules: seq<MultipointRule>, u: Node)
    requires Wired(w, edges) && RulesFor(w, endpoints, edges, iv, bw, us, rules)
    ensures RulesFor(w, endpoints, edges, iv, bw, us + [u], rules + [RuleFor(w, endpoints, edges, u, iv, bw)])
  {
    forall i | 0 <= i < |us| + 1
      ensures HasRule(w, endpoints, edges, iv, bw, us + [u], rules + [RuleFor(w, endpoints, edges, u, iv, bw)], i)
    {
      if i < |us| { assert HasRule(w, endpoints, edges, iv, bw, us, rules, i); }
    }
  }

  // ----- Resources -----

  function PortResources(firsts: seq<Endpoint>, bw: int): seq<Resource> {
    if firsts == [] then [] else
      var e := firsts[|firsts| - 1];
      PortResources(firsts[..|firsts| - 1], bw)
        + [VlanPort(e.switch, e.port, e.vlan), BandwidthPort(e.switch, e.port, bw)]
  }

  /** The tree on the intermediate VLAN, and one port for each switch that has endpoints. */
  function MultipointResources(endpoints: seq<Endpoint>, nodes: seq<Node>, edges: seq<Hop>, iv: int,
                               bw: int): seq<Resource> {
    [VlanTree(nodes, edges, iv), BandwidthTree(nodes, edges, bw)] + PortResources(Firsts(endpoints), bw)
  }

  lemma {:induction false} PortResourcesOf(firsts: seq<Endpoint>, bw: int, s: Node, p: int, v: int)
    ensures VlanPort(s, p, v) in PortResources(firsts, bw) <==> Endpoint(s, p, v) in firsts
    decreases |firsts|
  {
    if firsts != [] {
      PortResourcesOf(firsts[..|firsts| - 1], bw, s, p, v);
      assert firsts == firsts[..|firsts| - 1] + [firsts[|firsts| - 1]];
    }
  }

  /** Where the first endpoint on a switch is listed. */
  function FirstAt(endpoints: seq<Endpoint>, u: Node): (r: nat)
    requires OnSwitch(endpoints, u)
    ensures r < |endpoints| && endpoints[r].switch == u && forall k :: 0 <= k < r ==> endpoints[k].switch != u
    decreases |endpoints|
  {
    var front := endpoints[..|endpoints| - 1];
    if OnSwitch(front, u) then FirstAt(front, u) else
      assert forall k :: 0 <= k < |front| ==> front[k] == endpoints[k];
      |front|
  }

  lemma {:induction false} FirstsAre(endpoints: seq<Endpoint>, e: Endpoint)
    ensures e in Firsts(endpoints) <==> OnSwitch(endpoints, e.switch) && endpoints[FirstAt(endpoints, e.switch)] == e
    decreases |endpoints|
  {
    if endpoints != [] {
      var front, last := endpoints[..|endpoints| - 1], endpoints[|endpoints| - 1];
      FirstsAre(front, e);
      if OnSwitch(front, e.switch) {
        assert endpoints[FirstAt(front, e.switch)].switch == e.switch;
      }
    }
  }

  /** Only the first endpoint of each switch has its port reserved: the VLAN of any other endpoint is
      reserved on its port if and only if that is the same port and VLAN. */
  lemma EndpointReservedIff(endpoints: seq<Endpoint>, nodes: seq<Node>, edges: seq<Hop>, iv: int, bw: int, i: nat)
    requires i < |endpoints|
    ensures var e := endpoints[i];
            OnSwitch(endpoints, e.switch) &&
            (VlanPort(e.switch, e.port, e.vlan) in MultipointResources(endpoints, nodes, edges, iv, bw)
             <==> endpoints[FirstAt(endpoints, e.switch)] == e)
  {
    var e := endpoints[i];
    FirstsAre(endpoints, e);
    PortResourcesOf(Firsts(endpoints), bw, e.switch, e.port, e.vlan);
  }

  /** A LAN does leave an endpoint unreserved: here the second one, on another port of the same switch. */
  lemma SecondUnreserved(a: Node, nodes: seq<Node>, edges: seq<Hop>, iv: int, bw: int)
    ensures var endpoints := [Endpoint(a, 1, 10), Endpoint(a, 2, 20)];
            && VlanPort(a, 1, 10) in MultipointResources(endpoints, nodes, edges, iv, bw)
            && VlanPort(a, 2, 20) !in MultipointResources(endpoints, nodes, edges, iv, bw)
  {
    var endpoints := [Endpoint(a, 1, 10), Endpoint(a, 2, 20)];
    assert endpoints[0].switch == a;
    assert FirstAt(endpoints, a) == 0;
    EndpointReservedIff(endpoints, nodes, edges, iv, bw, 0);
    EndpointReservedIff(endpoints, nodes, edges, iv, bw, 1);
  }

  // ----- Breaking a multipoint LAN down -----

  /** Every edge of the topology was read from a switch's list of ports. */
  ghost predicate Cabled(w: Wiring, E: set<Edge>) {
    forall u, v :: Pair(u, v) in E && u in w ==> Linked(w, u, v)
  }

  lemma {:induction false} PlugStays(u: Node, cables: seq<Cable>, gone: set<Edge>, v: Node)
    requires Pair(u, v) !in gone
    ensures FirstTo(Plugged(u, cables, gone), v) == FirstTo(cables, v)
  {
    if cables != [] {
      PlugStays(u, cables[1..], gone, v);
      if Pair(u, cables[0].neighbor) !in gone {
        assert Plugged(u, cables, gone)[1..] == Plugged(u, cables[1..], gone);
      }
    }
  }

  /** The edges that are left are still read from the lists of ports, and there they have the same ports. */
  lemma CabledStays(w: Wiring, E: set<Edge>, gone: set<Edge>)
    requires Cabled(w, E)
    ensures Cabled(Unplugged(w, gone), E - gone)
    ensures forall u, v :: Linked(w, u, v) && Pair(u, v) !in gone ==>
              Linked(Unplugged(w, gone), u, v) && PortTo(Unplugged(w, gone), u, v) == PortTo(w, u, v)
  {
    forall u, v | Linked(w, u, v) && Pair(u, v) !in gone
      ensures FirstTo(Unplugged(w, gone)[u], v) == FirstTo(w[u], v)
    {
      PlugStays(u, w[u], gone, v);
    }
  }

  predicate Listed(edges: seq<Hop>, e: Edge) {
    exists i :: 0 <= i < |edges| && Crosses(edges[i], e)
  }

  ghost predicate ListsEdges(E: set<Edge>, edges: seq<Hop>) {
    DistinctEdges(edges) && forall e {:trigger Listed(edges, e)} :: e in E <==> Listed(edges, e)
  }

  /** The lists name every node and every edge of the tree once. */
  ghost predicate Lists(N: set<Node>, E: set<Edge>, nodes: seq<Node>, edges: seq<Hop>) {
    Distinct(nodes) && ToSet(nodes) == N && ListsEdges(E, edges)
  }

  lemma ListsOneMore(done: set<Edge>, edges: seq<Hop>, h: Hop)
    requires ListsEdges(done, edges) && Pair(h.0, h.1) !in done
    ensures ListsEdges(done + {Pair(h.0, h.1)}, edges + [h])
  {
    var more := edges + [h];
    forall e ensures e in done + {Pair(h.0, h.1)} <==> Listed(more, e) {
      assert e in done <==> Listed(edges, e);
      if Listed(edges, e) {
        var i :| 0 <= i < |edges| && Crosses(edges[i], e);
        assert Crosses(more[i], e);
      }
      if e == Pair(h.0, h.1) { assert Crosses(more[|edges|], e); }
      if Listed(more, e) {
        var i :| 0 <= i < |more| && Crosses(more[i], e);
        if i < |edges| { assert Crosses(edges[i], e); }
      }
    }
    forall i, j | 0 <= i < j < |more| ensures Pair(more[i].0, more[i].1) != Pair(more[j].0, more[j].1) {
      if j == |edges| {
        assert Crosses(edges[i], Pair(more[i].0, more[i].1)) && Listed(edges, Pair(more[i].0, more[i].1));
      }
    }
  }

  method ListEdges(tree: Graph) returns (edges: seq<Hop>)
    requires Within(tree.nodes, tree.edges)
    ensures ListsEdges(tree.edges, edges)
  {
    edges := [];
    var todo, done := tree.edges, {};
    while todo != {}
      invariant done + todo == tree.edges && done !! todo && ListsEdges(done, edges)
      decreases todo
    {
      var e :| e in todo;
      assert EdgeOf(tree.nodes, e);
      var u, v :| u in tree.nodes && v in tree.nodes && u != v && e == Pair(u, v);
      ListsOneMore(done, edges, (u, v));
      todo, done := todo - {e}, done + {e};
      edges := edges + [(u, v)];
    }
    assert done == tree.edges;
  }

  lemma ListedWired(w: Wiring, N: set<Node>, E: set<Edge>, edges: seq<Hop>)
    requires Cabled(w, E) && Within(N, E) && N <= w.Keys && ListsEdges(E, edges)
    ensures Wired(w, edges)
  {
    forall i | 0 <= i < |edges| ensures Linked(w, edges[i].0, edges[i].1) && Linked(w, edges[i].1, edges[i].0) {
      var (u, v) := edges[i];
      assert Crosses(edges[i], Pair(u, v)) && Listed(edges, Pair(u, v));
      WithinEnds(N, E, u, v);
      assert Pair(v, u) == Pair(u, v);
    }
  }

  /** Deleting other edges leaves the tree's switches joined by cables. */
  lemma TreeWired(w: Wiring, edges0: Links, edges: Links, N: set<Node>, E: set<Edge>, hops: seq<Hop>)
    requires Cabled(w, edges0.Keys) && E <= edges.Keys <= edges0.Keys
    requires Within(N, E) && N <= w.Keys && ListsEdges(E, hops)
    ensures Wired(Unplugged(w, edges0.Keys - edges.Keys), hops)
  {
    CabledStays(w, edges0.Keys, edges0.Keys - edges.Keys);
    ListedWired(Unplugged(w, edges0.Keys - edges.Keys), N, E, hops);
  }

  /** The switches of the tree that have no endpoint. */
  function Interior(endpoints: seq<Endpoint>, nodes: seq<Node>): seq<Node> {
    if nodes == [] then [] else
      var last := nodes[|nodes| - 1];
      Interior(endpoints, nodes[..|nodes| - 1]) + if OnSwitch(endpoints, last) then [] else [last]
  }

  predicate KnownFirsts(w: Wiring, firsts: seq<Endpoint>) {
    forall i :: 0 <= i < |firsts| ==> firsts[i].switch in w
  }

  lemma FirstsGrow(endpoints: seq<Endpoint>, i: nat)
    requires i < |endpoints|
    ensures var front := endpoints[..i];
            Firsts(endpoints[..i + 1]) == if OnSwitch(front, endpoints[i].switch) then Firsts(front)
              else Firsts(front) + [endpoints[i]]
  {
    assert endpoints[..i + 1][..i] == endpoints[..i];
  }

  lemma CoveredIff(endpoints: seq<Endpoint>, nodes: seq<Node>, i: nat)
    requires i < |nodes| && Distinct(nodes)
    ensures nodes[i] in Switches(Firsts(endpoints)) + Interior(endpoints, nodes[..i]) <==> OnSwitch(endpoints, nodes[i])
  {
    FirstsCoverAt(endpoints, nodes[i]);
    InteriorOf(endpoints, nodes[..i], nodes[i]);
  }

  lemma {:induction false} InteriorOf(endpoints: seq<Endpoint>, nodes: seq<Node>, u: Node)
    ensures u in Interior(endpoints, nodes) <==> u in nodes && !OnSwitch(endpoints, u)
    decreases |nodes|
  {
    if nodes != [] {
      InteriorOf(endpoints, nodes[..|nodes| - 1], u);
      assert nodes == nodes[..|nodes| - 1] + [nodes[|nodes| - 1]];
    }
  }

  /** The neighbours that the first endpoints lead to, where they lead anywhere. */
  function Externals(w: Wiring, firsts: seq<Endpoint>): seq<(Node, Node, int)>
    requires KnownFirsts(w, firsts)
  {
    if firsts == [] then [] else
      var e := firsts[|firsts| - 1];
      Externals(w, firsts[..|firsts| - 1]) + ExternalOf(w, e)
  }

  function ExternalOf(w: Wiring, e: Endpoint): seq<(Node, Node, int)>
    requires e.switch in w
  {
    match PortNeighbor(w, e.switch, e.port)
    case Some(n) => [(e.switch, n, e.vlan)]
    case None => []
  }

  /** Each external endpoint is what is behind the port of a first endpoint, with that endpoint's VLAN. */
  lemma {:induction false} ExternalsAre(w: Wiring, firsts: seq<Endpoint>, u: Node, n: Node, vlan: int)
    requires KnownFirsts(w, firsts)
    ensures (u, n, vlan) in Externals(w, firsts)
       <==> exists e :: e in firsts && e.switch == u && e.vlan == vlan
                        && u in w && PortNeighbor(w, u, e.port) == Some(n)
    decreases |firsts|
  {
    if firsts != [] {
      var front, last := firsts[..|firsts| - 1], firsts[|firsts| - 1];
      assert firsts == front + [last];
      ExternalsAre(w, front, u, n, vlan);
      assert last in firsts;
    }
  }

  /** What has been made for the endpoints `firsts`. */
  ghost predicate Made(w: Wiring, endpoints: seq<Endpoint>, edges: seq<Hop>, iv: int, bw: int, firsts: seq<Endpoint>,
                       covered: seq<Node>, rules: seq<MultipointRule>, rs: seq<Resource>,
                       externals: seq<(Node, Node, int)>)
    requires Wired(w, edges)
  {
    && covered == Switches(firsts) && RulesFor(w, endpoints, edges, iv, bw, covered, rules)
    && rs == PortResources(firsts, bw) && KnownFirsts(w, firsts) && externals == Externals(w, firsts)
  }

  /** What one more endpoint adds. */
  lemma MadeOneMore(w: Wiring, endpoints: seq<Endpoint>, edges: seq<Hop>, iv: int, bw: int, firsts: seq<Endpoint>,
                    covered: seq<Node>, rules: seq<MultipointRule>, rs: seq<Resource>,
                    externals: seq<(Node, Node, int)>, e: Endpoint)
    requires Wired(w, edges) && e.switch in w
             && Made(w, endpoints, edges, iv, bw, firsts, covered, rules, rs, externals)
    ensures Made(w, endpoints, edges, iv, bw, firsts + [e], covered + [e.switch],
                 rules + [RuleFor(w, endpoints, edges, e.switch, iv, bw)],
                 rs + [VlanPort(e.switch, e.port, e.vlan), BandwidthPort(e.switch, e.port, bw)],
                 externals + ExternalOf(w, e))
  {
    var more := firsts + [e];
    assert more[..|more| - 1] == firsts;
    assert Switches(more) == Switches(firsts) + [e.switch];
    OneMoreRule(w, endpoints, edges, iv, bw, covered, rules, e.switch);
  }

  /** What the tree search promises. */
  ghost predicate TreeFound(nodes: Nodes, edges: Links, voi: seq<Node>, bw: int, N: set<Node>, E: set<Edge>) {
    && ToSet(voi) <= N <= nodes.Keys && Within(N, E) && (voi != [] ==> IsTree(N, E))
    && Accepting(edges, E, Some(bw))
  }

  lemma {:induction false} PortsFormed(w: Wiring, firsts: seq<Endpoint>, bw: int)
    requires bw >= 0
    ensures forall r :: r in PortResources(firsts, bw) ==> WellFormed(w, r)
    decreases |firsts|
  {
    if firsts != [] {
      PortsFormed(w, firsts[..|firsts| - 1], bw);
    }
  }

  /** What the rule manager demands of the resources it is handed. */
  lemma MultipointFormed(w: Wiring, endpoints: seq<Endpoint>, nodes: seq<Node>, edges: seq<Hop>, iv: int, bw: int)
    requires Distinct(nodes) && DistinctEdges(edges) && bw >= 0
    ensures forall r :: r in MultipointResources(endpoints, nodes, edges, iv, bw) ==> WellFormed(w, r)
  {
    PortsFormed(w, Firsts(endpoints), bw);
    assert WellFormed(w, VlanTree(nodes, edges, iv)) && WellFormed(w, BandwidthTree(nodes, edges, bw));
  }

  /** What the tree and VLAN searches accept, the reservations accept too, with the same exception as for paths:
      the VLAN reservation succeeds exactly if no node of the tree that is not a switch uses the VLAN. */
  lemma TreeSearchAgrees(w: Wiring, nodes: Nodes, edges: Links, N: set<Node>, E: set<Edge>, treeNodes: seq<Node>,
                         treeEdges: seq<Hop>, vlan: int, bw: int)
    requires Lists(N, E, treeNodes, treeEdges) && ClearOnTree(nodes, edges, N, E, vlan)
    requires Accepting(edges, E, Some(bw))
    ensures Fits(w, nodes, edges, VlanTree(treeNodes, treeEdges, vlan))
       <==> forall n :: n in N && n in nodes && !nodes[n].isSwitch ==> vlan !in nodes[n].vlans
    ensures Fits(w, nodes, edges, BandwidthTree(treeNodes, treeEdges, bw))
  {
    var r := VlanTree(treeNodes, treeEdges, vlan);
    assert PairsOf(w, r) == treeEdges && NodesOf(r) == treeNodes;
    assert PairsOf(w, BandwidthTree(treeNodes, treeEdges, bw)) == treeEdges;
    forall n | n in treeNodes
      ensures n in N && n in nodes
      ensures FreeOnNode(nodes, n, vlan) <==> (!nodes[n].isSwitch ==> vlan !in nodes[n].vlans)
    {
      assert n in ToSet(treeNodes) && ClearOfSwitch(nodes, n, vlan);
    }
    forall h | h in treeEdges ensures FreeOnLink(edges, h, vlan) && RoomForBw(edges, h, bw) {
      var i :| 0 <= i < |treeEdges| && treeEdges[i] == h;
      assert Crosses(treeEdges[i], Pair(h.0, h.1)) && Listed(treeEdges, Pair(h.0, h.1));
    }
    forall n | n in N ensures n in treeNodes {
      assert n in ToSet(treeNodes);
    }
  }

  /** The endpoints cannot all be joined by edges with enough bandwidth. */
  ghost predicate CannotJoin(nodes: Nodes, edges: Links, voi: seq<Node>, bw: int) {
    || !(ToSet(voi) <= nodes.Keys)
    || (if |voi| > 1 then !Joinable(edges, ToSet(voi), Some(bw)) else |edges| == 0)
  }

  /** Built; no tree with enough bandwidth; no VLAN free on the tree; or a node that is not a switch. */
  datatype Verdict = Built | NoTree | NoVlan | NotASwitch

  class L2MultipointPolicy {
    const endpoints: seq<Endpoint>
    const bandwidth: int
    var treeNodes: seq<Node>
    var treeEdges: seq<Hop>
    var intermediateVlan: Option<int>
    var resources: seq<Resource>
    var externalEndpoints: seq<(Node, Node, int)>
    var breakdown: seq<MultipointRule>

    constructor (endpoints: seq<Endpoint>, bandwidth: int)
      ensures this.endpoints == endpoints && this.bandwidth == bandwidth
    {
      this.endpoints, this.bandwidth := endpoints, bandwidth;
      treeNodes, treeEdges, intermediateVlan, resources, externalEndpoints, breakdown := [], [], None, [], [], [];
    }

    /** The switches with endpoints, each once. */
    method EndpointSwitches() returns (switches: seq<Node>)
      ensures switches == Switches(Firsts(endpoints))
    {
      switches := [];
      for i := 0 to |endpoints|
        invariant switches == Switches(Firsts(endpoints[..i]))
      {
        assert endpoints[..i + 1][..i] == endpoints[..i];
        FirstsCoverAt(endpoints[..i], endpoints[i].switch);
        if endpoints[i].switch !in switches {
          switches := switches + [endpoints[i].switch];
        }
      }
      assert endpoints[..|endpoints|] == endpoints;
    }

    method EndpointPortsAt(u: Node) returns (ports: seq<(int, int)>)
      ensures ports == PortsAt(endpoints, u)
    {
      ports := [];
      for i := 0 to |endpoints|
        invariant ports == PortsAt(endpoints[..i], u)
      {
        assert endpoints[..i + 1][..i] == endpoints[..i];
        if endpoints[i].switch == u {
          ports := ports + [(endpoints[i].port, endpoints[i].vlan)];
        }
      }
      assert endpoints[..|endpoints|] == endpoints;
    }

    /** The ports of u on the tree. */
    method ConnectedPorts(w: Wiring, u: Node) returns (ports: seq<int>)
      requires Wired(w, treeEdges)
      ensures AllLinked(w, u, Around(treeEdges, u)) && ports == PortsTo(w, u, Around(treeEdges, u))
    {
      AroundLinked(w, treeEdges, u);
      var neighbors := Around(treeEdges, u);
      ports := [];
      for i := 0 to |neighbors|
        invariant ports == PortsTo(w, u, neighbors)[..i]
      {
        ports := ports + [PortTo(w, u, neighbors[i])];
      }
    }

    method FloodingPorts(u: Node, connected: seq<int>) returns (flooding: seq<int>)
      ensures flooding == NotEndpoints(endpoints, u, connected)
    {
      flooding := [];
      for i := 0 to |connected|
        invariant flooding == NotEndpoints(endpoints, u, connected[..i])
      {
        assert connected[..i + 1][..i] == connected[..i];
        if IsEndpointPort(endpoints, u, connected[i]) {
          continue;
        }
        flooding := flooding + [connected[i]];
      }
      assert connected[..|connected|] == connected;
    }

    /** A rule and two port resources for every switch with an endpoint. */
    method AddEndpointRules(tm: TopologyManager, iv: int) returns (covered: seq<Node>)
      requires Wired(tm.wiring, treeEdges) && breakdown == [] && externalEndpoints == []
      requires forall i :: 0 <= i < |endpoints| ==> endpoints[i].switch in tm.wiring
      modifies this`resources, this`externalEndpoints, this`breakdown
      ensures covered == Switches(Firsts(endpoints))
      ensures RulesFor(tm.wiring, endpoints, treeEdges, iv, bandwidth, covered, breakdown)
      ensures resources == old(resources) + PortResources(Firsts(endpoints), bandwidth)
      ensures KnownFirsts(tm.wiring, Firsts(endpoints)) && externalEndpoints == Externals(tm.wiring, Firsts(endpoints))
    {
      covered := [];
      ghost var tree, firsts, rs := resources, [], [];
      for i := 0 to |endpoints|
        invariant firsts == Firsts(endpoints[..i]) && resources == tree + rs
        invariant Made(tm.wiring, endpoints, treeEdges, iv, bandwidth, firsts, covered, breakdown, rs,
                       externalEndpoints)
      {
        FirstsCoverAt(endpoints[..i], endpoints[i].switch);
        FirstsGrow(endpoints, i);
        if endpoints[i].switch in covered {
          continue;
        }
        var e := endpoints[i];
        MadeOneMore(tm.wiring, endpoints, treeEdges, iv, bandwidth, firsts, covered, breakdown, rs, externalEndpoints,
                    e);
        AddEndpointRule(tm, e, iv);
        Regroup(tree, rs, [VlanPort(e.switch, e.port, e.vlan), BandwidthPort(e.switch, e.port, bandwidth)]);
        firsts := firsts + [e];
        rs := rs + [VlanPort(e.switch, e.port, e.vlan), BandwidthPort(e.switch, e.port, bandwidth)];
        covered := covered + [e.switch];
      }
      assert endpoints[..|endpoints|] == endpoints;
    }

    method AddEndpointRule(tm: TopologyManager, e: Endpoint, iv: int)
      requires Wired(tm.wiring, treeEdges) && e in endpoints && e.switch in tm.wiring
      modifies this`resources, this`externalEndpoints, this`breakdown
      ensures resources
              == old(resources) + [VlanPort(e.switch, e.port, e.vlan), BandwidthPort(e.switch, e.port, bandwidth)]
      ensures externalEndpoints == old(externalEndpoints) + ExternalOf(tm.wiring, e)
      ensures breakdown == old(breakdown) + [RuleFor(tm.wiring, endpoints, treeEdges, e.switch, iv, bandwidth)]
    {
      resources := resources + [VlanPort(e.switch, e.port, e.vlan)];
      resources := resources + [BandwidthPort(e.switch, e.port, bandwidth)];
      var neighbor := tm.GetSwitchPortNeighbor(e.switch, e.port);
      if neighbor != None {
        externalEndpoints := externalEndpoints + [(e.switch, neighbor.value, e.vlan)];
      }
      var rule := MakeEndpointRule(tm.wiring, e.switch, iv);
      breakdown := breakdown + [rule];
    }

    method MakeEndpointRule(w: Wiring, u: Node, iv: int) returns (rule: MultipointRule)
      requires Wired(w, treeEdges) && OnSwitch(endpoints, u)
      ensures rule == RuleFor(w, endpoints, treeEdges, u, iv, bandwidth)
    {
      var ports := EndpointPortsAt(u);
      var connected := ConnectedPorts(w, u);
      var flooding := FloodingPorts(u, connected);
      rule := EndpointRule(u, flooding, ports, iv, bandwidth);
    }

    /** A flooding rule for every other switch of the tree. */
    method AddFloodRules(w: Wiring, iv: int, switches: seq<Node>)
      requires Wired(w, treeEdges) && Distinct(treeNodes) && switches == Switches(Firsts(endpoints))
      requires RulesFor(w, endpoints, treeEdges, iv, bandwidth, switches, breakdown)
      modifies this`breakdown
      ensures RulesFor(w, endpoints, treeEdges, iv, bandwidth, switches + Interior(endpoints, treeNodes), breakdown)
    {
      var covered := switches;
      for i := 0 to |treeNodes|
        invariant covered == switches + Interior(endpoints, treeNodes[..i])
        invariant RulesFor(w, endpoints, treeEdges, iv, bandwidth, covered, breakdown)
      {
        var node := treeNodes[i];
        assert treeNodes[..i + 1][..i] == treeNodes[..i];
        CoveredIff(endpoints, treeNodes, i);
        if node in covered {
          continue;
        }
        var ports := ConnectedPorts(w, node);
        OneMoreRule(w, endpoints, treeEdges, iv, bandwidth, covered, breakdown, node);
        breakdown := breakdown + [FloodRule(node, ports, iv)];
        covered := covered + [node];
      }
      assert treeNodes[..|treeNodes|] == treeNodes;
    }

    /** The tree search and the VLAN search. */
    method PlanTree(tm: TopologyManager, dijkstra: PathFinder, switches: seq<Node>) returns (r: Verdict, tree: Graph)
      requires FindsShortest(dijkstra) && Within(tm.nodes.Keys, tm.edges.Keys) && Distinct(switches)
      modifies tm`edges, tm`wiring, this`intermediateVlan
      ensures tm.nodes == old(tm.nodes) && tm.edges.Keys <= old(tm.edges).Keys
              && forall e :: e in tm.edges ==> tm.edges[e] == old(tm.edges)[e]
      ensures tm.wiring == Unplugged(old(tm.wiring), old(tm.edges).Keys - tm.edges.Keys)
      ensures r == NoTree <==> CannotJoin(old(tm.nodes), old(tm.edges), switches, bandwidth)
      ensures r != NoTree ==> TreeFound(tm.nodes, tm.edges, switches, bandwidth, tree.nodes, tree.edges)
      ensures r == NoVlan ==> forall v :: 1 <= v < VLAN_LIMIT ==>
              !ClearOnTree(tm.nodes, tm.edges, tree.nodes, tree.edges, v)
      ensures r == Built ==> intermediateVlan.Some? && 1 <= intermediateVlan.value < VLAN_LIMIT
                             && ClearOnTree(tm.nodes, tm.edges, tree.nodes, tree.edges, intermediateVlan.value)
      ensures r != NotASwitch
    {
      var search := tm.FindValidSteinerTree(switches, Some(bandwidth), dijkstra);
      if !search.Grown? {
        tree := new Graph();
        return NoTree, tree;
      }
      tree := search.tree;
      intermediateVlan := tm.FindVlanOnTree(tree);
      if intermediateVlan == None {
        return NoVlan, tree;
      }
      r := Built;
    }

    /** Finds the tree and a VLAN that is free on all of it, and derives the resources and the rules. */
    method BreakdownRule(tm: TopologyManager, dijkstra: PathFinder) returns (r: Verdict, tree: Graph)
      requires FindsShortest(dijkstra) && Within(tm.nodes.Keys, tm.edges.Keys) && Cabled(tm.wiring, tm.edges.Keys)
      modifies this, tm`edges, tm`wiring
      ensures tm.nodes == old(tm.nodes) && tm.edges.Keys <= old(tm.edges).Keys
              && forall e :: e in tm.edges ==> tm.edges[e] == old(tm.edges)[e]
      ensures tm.wiring == Unplugged(old(tm.wiring), old(tm.edges).Keys - tm.edges.Keys)
      ensures r == NoTree <==> CannotJoin(old(tm.nodes), old(tm.edges), Switches(Firsts(endpoints)), bandwidth)
      ensures r != NoTree ==>
              TreeFound(tm.nodes, tm.edges, Switches(Firsts(endpoints)), bandwidth, tree.nodes, tree.edges)
      ensures r == NoVlan ==> forall v :: 1 <= v < VLAN_LIMIT ==>
              !ClearOnTree(tm.nodes, tm.edges, tree.nodes, tree.edges, v)
      ensures r == NoTree || r == NoVlan ==> breakdown == [] && resources == [] && externalEndpoints == []
      ensures r == NotASwitch ==> !(tree.nodes <= tm.wiring.Keys)
      ensures r == Built ==> intermediateVlan.Some? && 1 <= intermediateVlan.value < VLAN_LIMIT
                             && ClearOnTree(tm.nodes, tm.edges, tree.nodes, tree.edges, intermediateVlan.value)
      ensures r == Built ==> tree.nodes <= tm.wiring.Keys && Lists(tree.nodes, tree.edges, treeNodes, treeEdges)
      ensures r == Built ==> Wired(tm.wiring, treeEdges)
      ensures r == Built ==>
              resources == MultipointResources(endpoints, treeNodes, treeEdges, intermediateVlan.value, bandwidth)
      ensures r == Built ==>
              KnownFirsts(tm.wiring, Firsts(endpoints)) && externalEndpoints == Externals(tm.wiring, Firsts(endpoints))
      ensures r == Built ==> RulesFor(tm.wiring, endpoints, treeEdges, intermediateVlan.value, bandwidth,
                                      Switches(Firsts(endpoints)) + Interior(endpoints, treeNodes), breakdown)
    {
      breakdown, resources, externalEndpoints := [], [], [];
      var switches := EndpointSwitches();
      FirstsCover(endpoints);
      ghost var wiring0, edges0 := tm.wiring, tm.edges;
      r, tree := PlanTree(tm, dijkstra, switches);
      if r != Built {
        return;
      }
      treeNodes := Listing(tree.nodes);
      treeEdges := ListEdges(tree);
      // A node that is not a switch has no datapath id to look up.
      if !(tree.nodes <= tm.wiring.Keys) {
        return NotASwitch, tree;
      }
      TreeWired(wiring0, edges0, tm.edges, tree.nodes, tree.edges, treeEdges);
      MakeRules(tm, intermediateVlan.value);
    }

    method MakeRules(tm: TopologyManager, iv: int)
      requires Wired(tm.wiring, treeEdges) && Distinct(treeNodes) && breakdown == [] && externalEndpoints == []
               && resources == []
      requires forall i :: 0 <= i < |endpoints| ==> endpoints[i].switch in tm.wiring
      modifies this`resources, this`externalEndpoints, this`breakdown
      ensures resources == MultipointResources(endpoints, treeNodes, treeEdges, iv, bandwidth)
      ensures KnownFirsts(tm.wiring, Firsts(endpoints)) && externalEndpoints == Externals(tm.wiring, Firsts(endpoints))
      ensures RulesFor(tm.wiring, endpoints, treeEdges, iv, bandwidth,
                       Switches(Firsts(endpoints)) + Interior(endpoints, treeNodes), breakdown)
    {
      resources := resources + [VlanTree(treeNodes, treeEdges, iv)];
      resources := resources + [BandwidthTree(treeNodes, treeEdges, bandwidth)];
      var covered := AddEndpointRules(tm, iv);
      AddFloodRules(tm.wiring, iv, covered);
    }
  }
}
