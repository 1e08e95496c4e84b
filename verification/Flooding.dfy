/** What a multipoint LAN does with a frame: flooded along the tree, it reaches every other endpoint exactly
    once, tagged for that endpoint, crosses every edge of the tree exactly once, and then stops. */
module Flooding {
  import opened Basics
  import opened Graphs
  import opened TreeSides
  import opened PathResources
  import opened OpenFlow
  import opened RyuTranslate
  import opened L2Multipoints
  import opened MultipointFlows

  // ----- Spreading through a network -----

  datatype Delivery = Delivery(switch: Node, port: int, tags: seq<int>)

  /** What left the network, and which edges were crossed how often; Lost if the frame was still travelling
      when the fuel ran out. */
  datatype Spread = Lost | Spread(delivered: multiset<Delivery>, crossed: multiset<Edge>)

  function Both(a: Spread, b: Spread): Spread {
    if a.Lost? || b.Lost? then Lost else Spread(a.delivered + b.delivered, a.crossed + b.crossed)
  }

  /** What becomes of a frame at a switch, when no copy of it may cross more than `fuel` links. */
  function Flood(w: Wiring, net: (Node, Frame) -> seq<Out>, u: Node, f: Frame, fuel: nat): Spread
    decreases fuel, 1, 0
  {
    FloodOuts(w, net, u, net(u, f), f.dst, fuel)
  }

  function FloodOuts(w: Wiring, net: (Node, Frame) -> seq<Out>, u: Node, outs: seq<Out>, dst: int, fuel: nat): Spread
    decreases fuel, 0, |outs|
  {
    if outs == [] then Spread(multiset{}, multiset{}) else
      Both(FloodOuts(w, net, u, outs[..|outs| - 1], dst, fuel), FloodOut(w, net, u, outs[|outs| - 1], dst, fuel))
  }

  /** The controller's copy is not a delivery. */
  function FloodOut(w: Wiring, net: (Node, Frame) -> seq<Out>, u: Node, out: Out, dst: int, fuel: nat): Spread
    decreases fuel, 0, 0
  {
    if out.port == OFPP_CONTROLLER then Spread(multiset{}, multiset{})
    else if u !in w then Lost
    else match Across(w, u, out.port)
      case None => Spread(multiset{Delivery(u, out.port, out.tags)}, multiset{})
      case Some((v, port)) =>
        if fuel == 0 then Lost else
          match Flood(w, net, v, Frame(port, out.tags, dst), fuel - 1)
          case Lost => Lost
          case Spread(delivered, crossed) => Spread(delivered, crossed + multiset{Pair(u, v)})
  }

  lemma BothAssoc(a: Spread, b: Spread, c: Spread)
    ensures Both(Both(a, b), c) == Both(a, Both(b, c))
  {
    if a.Spread? && b.Spread? && c.Spread? {
      assert a.delivered + b.delivered + c.delivered == a.delivered + (b.delivered + c.delivered);
      assert a.crossed + b.crossed + c.crossed == a.crossed + (b.crossed + c.crossed);
    }
  }

  lemma FloodLast(w: Wiring, net: (Node, Frame) -> seq<Out>, u: Node, outs: seq<Out>, out: Out, dst: int, fuel: nat)
    ensures FloodOuts(w, net, u, outs + [out], dst, fuel)
            == Both(FloodOuts(w, net, u, outs, dst, fuel), FloodOut(w, net, u, out, dst, fuel))
  {
    assert (outs + [out])[..|outs|] == outs;
  }

  lemma {:induction false} FloodConcat(w: Wiring, net: (Node, Frame) -> seq<Out>, u: Node, a: seq<Out>, b: seq<Out>,
                                       dst: int, fuel: nat)
    ensures FloodOuts(w, net, u, a + b, dst, fuel)
            == Both(FloodOuts(w, net, u, a, dst, fuel), FloodOuts(w, net, u, b, dst, fuel))
    decreases |b|
  {
    if b == [] {
      assert a + b == a;
    } else {
      var front, last := b[..|b| - 1], b[|b| - 1];
      assert b == front + [last] && a + b == (a + front) + [last];
      FloodConcat(w, net, u, a, front, dst, fuel);
      FloodLast(w, net, u, a + front, last, dst, fuel);
      FloodLast(w, net, u, front, last, dst, fuel);
      BothAssoc(FloodOuts(w, net, u, a, dst, fuel), FloodOuts(w, net, u, front, dst, fuel),
                FloodOut(w, net, u, last, dst, fuel));
    }
  }

  // ----- A multipoint LAN -----

  datatype Lan = Lan(w: Wiring, nodes: set<Node>, edges: set<Edge>, hops: seq<Hop>, endpoints: seq<Endpoint>, iv: int,
                     bandwidth: int)

  /** The endpoint is on the tree, on a port that leads out of the network. */
  predicate EdgePort(lan: Lan, e: Endpoint) {
    e.switch in lan.nodes && e.switch in lan.w && Across(lan.w, e.switch, e.port) == None && e.port != OFPP_CONTROLLER
  }

  /** A tree of switches that joins endpoints on the edge of the network. */
  ghost predicate LanOk(lan: Lan) {
    && WiringOk(lan.w) && IsTree(lan.nodes, lan.edges) && lan.nodes <= lan.w.Keys
    && ListsEdges(lan.edges, lan.hops) && Wired(lan.w, lan.hops) && WiredPorts(lan)
    && forall i {:trigger EdgePort(lan, lan.endpoints[i])} :: 0 <= i < |lan.endpoints| ==>
       EdgePort(lan, lan.endpoints[i])
  }

  /** No switch port has the reserved number of the controller. */
  predicate WiredPorts(lan: Lan) {
    forall u, i :: u in lan.w && 0 <= i < |lan.w[u]| ==> lan.w[u][i].port != OFPP_CONTROLLER
  }

  lemma {:induction false} AroundIff(hops: seq<Hop>, u: Node, v: Node)
    ensures v in Around(hops, u) <==> Listed(hops, Pair(u, v))
    decreases |hops|
  {
    if hops != [] {
      var front, last := hops[..|hops| - 1], hops[|hops| - 1];
      AroundIff(front, u, v);
      if i :| 0 <= i < |hops| && Crosses(hops[i], Pair(u, v)) {
        if i < |front| { assert Crosses(front[i], Pair(u, v)); } else { PairInjective(last.0, last.1, u, v); }
      }
      if i :| 0 <= i < |front| && Crosses(front[i], Pair(u, v)) { assert Crosses(hops[i], Pair(u, v)); }
      if (last.0 == u && last.1 == v) || (last.1 == u && last.0 == v) { assert Crosses(hops[|front|], Pair(u, v)); }
    }
  }

  lemma {:induction false} AroundDistinct(hops: seq<Hop>, u: Node)
    requires DistinctEdges(hops)
    ensures Distinct(Around(hops, u))
    decreases |hops|
  {
    if hops != [] {
      var front, last := hops[..|hops| - 1], hops[|hops| - 1];
      AroundDistinct(front, u);
      if last.0 == u || last.1 == u {
        var v := if last.0 == u then last.1 else last.0;
        AroundIff(front, u, v);
        if i :| 0 <= i < |front| && Crosses(front[i], Pair(u, v)) {
          assert false;
        }
      }
    }
  }

  /** The tree neighbours of a switch, each once. */
  lemma Neighborhood(lan: Lan, u: Node)
    requires LanOk(lan)
    ensures Distinct(Around(lan.hops, u)) && forall v :: v in Around(lan.hops, u) <==> Pair(u, v) in lan.edges
    ensures AllLinked(lan.w, u, Around(lan.hops, u))
  {
    AroundDistinct(lan.hops, u);
    forall v ensures v in Around(lan.hops, u) <==> Pair(u, v) in lan.edges {
      AroundIff(lan.hops, u, v);
      assert Listed(lan.hops, Pair(u, v)) <==> Pair(u, v) in lan.edges;
    }
    AroundLinked(lan.w, lan.hops, u);
  }

  ghost function Rule(lan: Lan, u: Node): MultipointRule
    requires Wired(lan.w, lan.hops)
  {
    RuleFor(lan.w, lan.endpoints, lan.hops, u, lan.iv, lan.bandwidth)
  }

  lemma EdgeLink(lan: Lan, u: Node, v: Node)
    requires LanOk(lan) && Pair(u, v) in lan.edges
    ensures u in lan.nodes && v in lan.nodes && Linked(lan.w, u, v) && Linked(lan.w, v, u)
    ensures Across(lan.w, u, PortTo(lan.w, u, v)) == Some((v, PortTo(lan.w, v, u)))
            && PortTo(lan.w, u, v) != OFPP_CONTROLLER
  {
    WithinEnds(lan.nodes, lan.edges, u, v);
    assert Pair(v, u) == Pair(u, v);
    Neighborhood(lan, u);
    Neighborhood(lan, v);
    assert u in Around(lan.hops, v) && v in Around(lan.hops, u);
    PortAndNeighbor(lan.w, u, v);
    FirstToFinds(lan.w[u], v);
  }

  lemma PortsApart(lan: Lan, u: Node, v: Node, v': Node)
    requires LanOk(lan) && Pair(u, v) in lan.edges && Pair(u, v') in lan.edges && v != v'
    ensures Linked(lan.w, u, v) && Linked(lan.w, u, v') && PortTo(lan.w, u, v) != PortTo(lan.w, u, v')
  {
    EdgeLink(lan, u, v);
    EdgeLink(lan, u, v');
  }

  lemma EndpointEdge(lan: Lan, i: nat)
    requires LanOk(lan) && i < |lan.endpoints|
    ensures EdgePort(lan, lan.endpoints[i])
  {
  }

  /** An endpoint's port does not lead to a switch, so no tree port is one. */
  lemma {:induction false} AllFlooded(lan: Lan, u: Node, ports: seq<int>)
    requires LanOk(lan) && u in lan.w && forall p :: p in ports ==> Across(lan.w, u, p).Some?
    ensures NotEndpoints(lan.endpoints, u, ports) == ports
    decreases |ports|
  {
    if ports != [] {
      var front, last := ports[..|ports| - 1], ports[|ports| - 1];
      assert ports == front + [last];
      AllFlooded(lan, u, front);
      if IsEndpointPort(lan.endpoints, u, last) {
        var i :| 0 <= i < |lan.endpoints| && lan.endpoints[i].switch == u && lan.endpoints[i].port == last;
        EndpointEdge(lan, i);
        assert false;
      }
    }
  }

  lemma {:induction false} NoPortsAt(endpoints: seq<Endpoint>, u: Node)
    requires !OnSwitch(endpoints, u)
    ensures PortsAt(endpoints, u) == []
    decreases |endpoints|
  {
    if endpoints != [] {
      assert endpoints[|endpoints| - 1].switch != u;
      var front := endpoints[..|endpoints| - 1];
      assert forall i :: 0 <= i < |front| ==> front[i] == endpoints[i];
      NoPortsAt(front, u);
    }
  }

  /** A switch's rule floods all its tree ports and serves all its endpoints. */
  lemma RuleShape(lan: Lan, u: Node)
    requires LanOk(lan) && u in lan.nodes
    ensures AllLinked(lan.w, u, Around(lan.hops, u)) && Rule(lan, u).iv == lan.iv
    ensures Rule(lan, u).flooding == PortsTo(lan.w, u, Around(lan.hops, u))
            && Ends(Rule(lan, u)) == PortsAt(lan.endpoints, u)
  {
    Neighborhood(lan, u);
    var ports := PortsTo(lan.w, u, Around(lan.hops, u));
    forall p | p in ports ensures Across(lan.w, u, p).Some? {
      var i :| 0 <= i < |ports| && ports[i] == p;
      EdgeLink(lan, u, Around(lan.hops, u)[i]);
    }
    AllFlooded(lan, u, ports);
    if !OnSwitch(lan.endpoints, u) { NoPortsAt(lan.endpoints, u); }
  }

  lemma {:induction false} InteriorDistinct(endpoints: seq<Endpoint>, nodes: seq<Node>)
    requires Distinct(nodes)
    ensures Distinct(Interior(endpoints, nodes))
    decreases |nodes|
  {
    if nodes != [] {
      var front := nodes[..|nodes| - 1];
      InteriorDistinct(endpoints, front);
      InteriorOf(endpoints, front, nodes[|nodes| - 1]);
    }
  }

  /** The switches that get a rule are those of the tree, each once. */
  lemma SwitchesOfTree(lan: Lan, nodes: seq<Node>)
    requires Distinct(nodes) && ToSet(nodes) == lan.nodes
    requires forall i :: 0 <= i < |lan.endpoints| ==> lan.endpoints[i].switch in lan.nodes
    ensures var us := Switches(Firsts(lan.endpoints)) + Interior(lan.endpoints, nodes);
            && Distinct(us)
            && ToSet(us) == lan.nodes
  {
    var firsts, interior := Switches(Firsts(lan.endpoints)), Interior(lan.endpoints, nodes);
    FirstsCover(lan.endpoints);
    InteriorDistinct(lan.endpoints, nodes);
    forall u | u in firsts ensures u !in interior && u in lan.nodes {
      FirstsCoverAt(lan.endpoints, u);
      InteriorOf(lan.endpoints, nodes, u);
    }
    forall u | u in interior ensures u in lan.nodes {
      InteriorOf(lan.endpoints, nodes, u);
      assert u in ToSet(nodes);
    }
    forall u | u in lan.nodes ensures u in firsts || u in interior {
      FirstsCoverAt(lan.endpoints, u);
      InteriorOf(lan.endpoints, nodes, u);
      assert u in ToSet(nodes);
    }
    JoinDistinct(firsts, interior, lan.nodes);
  }

  lemma JoinDistinct(a: seq<Node>, b: seq<Node>, all: set<Node>)
    requires Distinct(a) && Distinct(b) && forall u :: u in a ==> u !in b
    requires forall u :: u in all <==> u in a || u in b
    ensures Distinct(a + b) && ToSet(a + b) == all
  {
    forall i, j | 0 <= i < j < |a + b| ensures (a + b)[i] != (a + b)[j] {
      if i < |a| <= j { assert (a + b)[i] in a && (a + b)[j] in b; }
    }
  }

  lemma EachOnce(us: seq<Node>, N: set<Node>, rules: seq<MultipointRule>)
    requires Distinct(us) && ToSet(us) == N && |rules| == |us|
    requires forall i :: 0 <= i < |rules| ==> rules[i].switch == us[i]
    ensures forall i :: 0 <= i < |rules| ==> rules[i].switch in N
    ensures forall u :: u in N ==> exists i :: 0 <= i < |rules| && rules[i].switch == u
    ensures forall i, j :: 0 <= i < j < |rules| ==> rules[i].switch != rules[j].switch
  {
    forall u | u in N ensures exists i :: 0 <= i < |rules| && rules[i].switch == u {
      var i := PlaceOf(us, u);
      assert rules[i].switch == u;
    }
    forall i | 0 <= i < |rules| ensures rules[i].switch in N {
      assert us[i] in ToSet(us);
    }
  }

  lemma PlaceOf(us: seq<Node>, u: Node) returns (i: nat)
    requires u in ToSet(us)
    ensures i < |us| && us[i] == u
  {
    i :| 0 <= i < |us| && us[i] == u;
  }

  lemma RulesOfSwitches(lan: Lan, us: seq<Node>, rules: seq<MultipointRule>)
    requires Wired(lan.w, lan.hops)
    requires RulesFor(lan.w, lan.endpoints, lan.hops, lan.iv, lan.bandwidth, us, rules)
    ensures |rules| == |us| && forall i :: 0 <= i < |rules| ==> rules[i].switch == us[i] && rules[i] == Rule(lan, us[i])
  {
    forall i | 0 <= i < |rules| ensures rules[i].switch == us[i] && rules[i] == Rule(lan, us[i]) {
      assert HasRule(lan.w, lan.endpoints, lan.hops, lan.iv, lan.bandwidth, us, rules, i);
    }
  }

  /** The breakdown of the policy gives every switch of the tree its rule, and no switch a second one. */
  lemma RulesCoverTree(lan: Lan, nodes: seq<Node>, rules: seq<MultipointRule>)
    requires Wired(lan.w, lan.hops) && Distinct(nodes) && ToSet(nodes) == lan.nodes
    requires forall i :: 0 <= i < |lan.endpoints| ==> lan.endpoints[i].switch in lan.nodes
    requires RulesFor(lan.w, lan.endpoints, lan.hops, lan.iv, lan.bandwidth,
                      Switches(Firsts(lan.endpoints)) + Interior(lan.endpoints, nodes), rules)
    ensures forall i :: 0 <= i < |rules| ==> rules[i].switch in lan.nodes && rules[i] == Rule(lan, rules[i].switch)
    ensures forall u :: u in lan.nodes ==> exists i :: 0 <= i < |rules| && rules[i].switch == u
    ensures forall i, j :: 0 <= i < j < |rules| ==> rules[i].switch != rules[j].switch
  {
    var us := Switches(Firsts(lan.endpoints)) + Interior(lan.endpoints, nodes);
    SwitchesOfTree(lan, nodes);
    RulesOfSwitches(lan, us, rules);
    EachOnce(us, lan.nodes, rules);
  }

  // ----- What the switches of the LAN do -----

  /** Everything a switch sends out when it floods a frame from a port. */
  ghost function OutsFrom(lan: Lan, u: Node, port: int, inner: seq<int>): seq<Out>
    requires AllLinked(lan.w, u, Around(lan.hops, u))
  {
    ToPorts(PortsTo(lan.w, u, Around(lan.hops, u)), port, [lan.iv] + inner)
      + ToEnds(PortsAt(lan.endpoints, u), port, inner)
  }

  /** The switch runs the translation of its rule, and no other flow on it decides about the LAN's frames. */
  ghost predicate Serves(lan: Lan, cookie: int, own: seq<Flow>, flows: seq<Flow>, u: Node)
    requires Wired(lan.w, lan.hops)
  {
    Translated(Rule(lan, u), cookie, own) && Prevails(Rule(lan, u), own, flows)
  }

  ghost predicate AllServe(lan: Lan, cookies: Node -> int, owns: Node -> seq<Flow>, flows: Node -> seq<Flow>)
    requires Wired(lan.w, lan.hops)
  {
    forall u {:trigger Serves(lan, cookies(u), owns(u), flows(u), u)} :: u in lan.nodes ==>
      Serves(lan, cookies(u), owns(u), flows(u), u)
  }

  function Pipelines(flows: Node -> seq<Flow>): (Node, Frame) -> seq<Out> {
    (u: Node, f: Frame) => Process(flows(u), L2TUNNEL_TABLE, f)
  }

  /** Between switches: what comes from neighbour p is flooded. */
  ghost predicate Passes(lan: Lan, net: (Node, Frame) -> seq<Out>, u: Node, p: Node, inner: seq<int>, dst: int) {
    && AllLinked(lan.w, u, Around(lan.hops, u)) && Linked(lan.w, u, p)
    && net(u, Frame(PortTo(lan.w, u, p), [lan.iv] + inner, dst)) == OutsFrom(lan, u, PortTo(lan.w, u, p), inner)
  }

  /** At the edge: what comes from an endpoint is shown to the controller and flooded. */
  ghost predicate Accepts(lan: Lan, net: (Node, Frame) -> seq<Out>, e: Endpoint, inner: seq<int>, dst: int) {
    && AllLinked(lan.w, e.switch, Around(lan.hops, e.switch))
    && net(e.switch, Frame(e.port, [e.vlan] + inner, dst))
       == [Out(OFPP_CONTROLLER, [lan.iv] + inner)] + OutsFrom(lan, e.switch, e.port, inner)
  }

  lemma TreePort(lan: Lan, u: Node, p: Node)
    requires LanOk(lan) && Pair(u, p) in lan.edges
    ensures u in lan.nodes && Linked(lan.w, u, p) && PortTo(lan.w, u, p) in Rule(lan, u).flooding
            && !IsEndPort(Rule(lan, u), PortTo(lan.w, u, p))
  {
    EdgeLink(lan, u, p);
    Neighborhood(lan, u);
    RuleShape(lan, u);
    var k :| 0 <= k < |Around(lan.hops, u)| && Around(lan.hops, u)[k] == p;
    assert Rule(lan, u).flooding[k] == PortTo(lan.w, u, p);
    NotAnEnd(lan, u, PortTo(lan.w, u, p));
  }

  lemma FloodedIsOuts(lan: Lan, u: Node, port: int, inner: seq<int>)
    requires LanOk(lan) && u in lan.nodes
    ensures AllLinked(lan.w, u, Around(lan.hops, u))
            && Flooded(Rule(lan, u), port, inner) == OutsFrom(lan, u, port, inner)
    ensures Rule(lan, u).iv == lan.iv
  {
    RuleShape(lan, u);
  }

  lemma ServesTree(lan: Lan, cookie: int, own: seq<Flow>, flows: seq<Flow>, u: Node, p: Node, inner: seq<int>, dst: int)
    requires LanOk(lan) && Pair(u, p) in lan.edges && Serves(lan, cookie, own, flows, u)
    ensures AllLinked(lan.w, u, Around(lan.hops, u)) && Linked(lan.w, u, p)
    ensures Process(flows, L2TUNNEL_TABLE, Frame(PortTo(lan.w, u, p), [lan.iv] + inner, dst))
            == OutsFrom(lan, u, PortTo(lan.w, u, p), inner)
  {
    TreePort(lan, u, p);
    FloodedIsOuts(lan, u, PortTo(lan.w, u, p), inner);
    FloodsFromTree(Rule(lan, u), cookie, own, flows, PortTo(lan.w, u, p), inner, dst);
  }

  lemma PassesTree(lan: Lan, cookies: Node -> int, owns: Node -> seq<Flow>, flows: Node -> seq<Flow>, u: Node, p: Node,
                   inner: seq<int>, dst: int)
    requires LanOk(lan) && AllServe(lan, cookies, owns, flows) && Pair(u, p) in lan.edges
    ensures Passes(lan, Pipelines(flows), u, p, inner, dst)
  {
    EdgeLink(lan, u, p);
    assert Serves(lan, cookies(u), owns(u), flows(u), u);
    ServesTree(lan, cookies(u), owns(u), flows(u), u, p, inner, dst);
  }

  lemma {:induction false} PortsAtHas(endpoints: seq<Endpoint>, u: Node, port: int, vlan: int)
    ensures (port, vlan) in PortsAt(endpoints, u) <==> Endpoint(u, port, vlan) in endpoints
    decreases |endpoints|
  {
    if endpoints != [] {
      PortsAtHas(endpoints[..|endpoints| - 1], u, port, vlan);
      assert endpoints == endpoints[..|endpoints| - 1] + [endpoints[|endpoints| - 1]];
    }
  }

  lemma NotAnEnd(lan: Lan, u: Node, port: int)
    requires LanOk(lan) && u in lan.nodes && Across(lan.w, u, port).Some?
    ensures !IsEndPort(Rule(lan, u), port)
  {
    RuleShape(lan, u);
    if i :| 0 <= i < |PortsAt(lan.endpoints, u)| && PortsAt(lan.endpoints, u)[i].0 == port {
      var vlan := PortsAt(lan.endpoints, u)[i].1;
      PortsAtHas(lan.endpoints, u, port, vlan);
      var k :| 0 <= k < |lan.endpoints| && lan.endpoints[k] == Endpoint(u, port, vlan);
      assert EdgePort(lan, lan.endpoints[k]);
    }
  }

  lemma EndpointIndex(lan: Lan, e: Endpoint) returns (i: nat)
    requires LanOk(lan) && e in lan.endpoints
    ensures EdgePort(lan, e) && i < |Ends(Rule(lan, e.switch))| && Ends(Rule(lan, e.switch))[i] == (e.port, e.vlan)
  {
    var k :| 0 <= k < |lan.endpoints| && lan.endpoints[k] == e;
    EndpointEdge(lan, k);
    RuleShape(lan, e.switch);
    PortsAtHas(lan.endpoints, e.switch, e.port, e.vlan);
    i :| 0 <= i < |PortsAt(lan.endpoints, e.switch)| && PortsAt(lan.endpoints, e.switch)[i] == (e.port, e.vlan);
  }

  lemma ServesEndpoint(lan: Lan, cookie: int, own: seq<Flow>, flows: seq<Flow>, e: Endpoint, inner: seq<int>, dst: int)
    requires LanOk(lan) && e in lan.endpoints && Serves(lan, cookie, own, flows, e.switch)
    ensures AllLinked(lan.w, e.switch, Around(lan.hops, e.switch))
    ensures Process(flows, L2TUNNEL_TABLE, Frame(e.port, [e.vlan] + inner, dst))
         == [Out(OFPP_CONTROLLER, [lan.iv] + inner)] + OutsFrom(lan, e.switch, e.port, inner)
  {
    var i := EndpointIndex(lan, e);
    FloodedIsOuts(lan, e.switch, e.port, inner);
    FloodsFromEndpoint(Rule(lan, e.switch), cookie, own, flows, i, inner, dst);
  }

  lemma AcceptsEndpoint(lan: Lan, cookies: Node -> int, owns: Node -> seq<Flow>, flows: Node -> seq<Flow>, e: Endpoint,
                        inner: seq<int>, dst: int)
    requires LanOk(lan) && AllServe(lan, cookies, owns, flows) && e in lan.endpoints
    ensures Accepts(lan, Pipelines(flows), e, inner, dst)
  {
    var u := e.switch;
    var i := EndpointIndex(lan, e);
    assert Serves(lan, cookies(u), owns(u), flows(u), u);
    ServesEndpoint(lan, cookies(u), owns(u), flows(u), e, inner, dst);
  }

  // ----- Who is due a copy -----

  lemma RegroupBags<T>(a: multiset<T>, b: multiset<T>, c: multiset<T>)
    ensures (a + b) + c == a + (b + c) && a + b == b + a
  {
  }

  function CopyFor(e: Endpoint, inner: seq<int>): Delivery {
    Delivery(e.switch, e.port, [e.vlan] + inner)
  }

  /** One copy for every endpoint on these switches. */
  function Due(endpoints: seq<Endpoint>, S: set<Node>, inner: seq<int>): multiset<Delivery> {
    if endpoints == [] then multiset{} else
      var e := endpoints[|endpoints| - 1];
      Due(endpoints[..|endpoints| - 1], S, inner) + if e.switch in S then multiset{CopyFor(e, inner)} else multiset{}
  }

  /** One copy for every endpoint on u that is not on this port. */
  function DueBeside(endpoints: seq<Endpoint>, u: Node, port: int, inner: seq<int>): multiset<Delivery> {
    if endpoints == [] then multiset{} else
      var e := endpoints[|endpoints| - 1];
      DueBeside(endpoints[..|endpoints| - 1], u, port, inner)
      + if e.switch == u && e.port != port then multiset{CopyFor(e, inner)} else multiset{}
  }

  lemma {:induction false} DueUnion(endpoints: seq<Endpoint>, A: set<Node>, B: set<Node>, inner: seq<int>)
    requires A !! B
    ensures Due(endpoints, A + B, inner) == Due(endpoints, A, inner) + Due(endpoints, B, inner)
    decreases |endpoints|
  {
    if endpoints != [] {
      DueUnion(endpoints[..|endpoints| - 1], A, B, inner);
    }
  }

  lemma {:induction false} DueNowhere(endpoints: seq<Endpoint>, inner: seq<int>)
    ensures Due(endpoints, {}, inner) == multiset{}
    decreases |endpoints|
  {
    if endpoints != [] { DueNowhere(endpoints[..|endpoints| - 1], inner); }
  }

  lemma {:induction false} DueAtNode(endpoints: seq<Endpoint>, u: Node, port: int, inner: seq<int>)
    requires forall i :: 0 <= i < |endpoints| && endpoints[i].switch == u ==> endpoints[i].port != port
    ensures DueBeside(endpoints, u, port, inner) == Due(endpoints, {u}, inner)
    decreases |endpoints|
  {
    if endpoints != [] {
      DueAtNode(endpoints[..|endpoints| - 1], u, port, inner);
      assert endpoints[|endpoints| - 1].switch == u ==> endpoints[|endpoints| - 1].port != port;
    }
  }

  /** The endpoints on u are on ports that lead to no other switch. */
  predicate EndsLeave(w: Wiring, u: Node, endpoints: seq<Endpoint>)
    requires u in w
  {
    forall i :: 0 <= i < |endpoints| && endpoints[i].switch == u ==>
      Across(w, u, endpoints[i].port) == None && endpoints[i].port != OFPP_CONTROLLER
  }

  lemma EndLeaves(w: Wiring, u: Node, front: seq<Endpoint>, e: Endpoint)
    requires u in w && EndsLeave(w, u, front + [e])
    ensures EndsLeave(w, u, front)
    ensures e.switch == u ==> Across(w, u, e.port) == None && e.port != OFPP_CONTROLLER
  {
    var all := front + [e];
    assert all[|front|] == e && forall i :: 0 <= i < |front| ==> all[i] == front[i];
  }

  lemma EndsOneMore(w: Wiring, net: (Node, Frame) -> seq<Out>, u: Node, front: seq<Endpoint>, e: Endpoint, port: int,
                    inner: seq<int>, dst: int, fuel: nat)
    requires u in w && (e.switch == u ==> Across(w, u, e.port) == None && e.port != OFPP_CONTROLLER)
    requires FloodOuts(w, net, u, ToEnds(PortsAt(front, u), port, inner), dst, fuel)
          == Spread(DueBeside(front, u, port, inner), multiset{})
    ensures FloodOuts(w, net, u, ToEnds(PortsAt(front + [e], u), port, inner), dst, fuel)
         == Spread(DueBeside(front + [e], u, port, inner), multiset{})
  {
    EndsGrow(front, e, u, port, inner);
    if e.switch == u && e.port != port {
      FloodLast(w, net, u, ToEnds(PortsAt(front, u), port, inner), Out(e.port, [e.vlan] + inner), dst, fuel);
    }
  }

  /** A switch's copies for its own endpoints leave at once. */
  lemma {:induction false} EndsSpread(w: Wiring, net: (Node, Frame) -> seq<Out>, u: Node, endpoints: seq<Endpoint>,
                                      port: int, inner: seq<int>, dst: int, fuel: nat)
    requires u in w && EndsLeave(w, u, endpoints)
    ensures FloodOuts(w, net, u, ToEnds(PortsAt(endpoints, u), port, inner), dst, fuel)
         == Spread(DueBeside(endpoints, u, port, inner), multiset{})
    decreases |endpoints|
  {
    if endpoints != [] {
      var front, e := endpoints[..|endpoints| - 1], endpoints[|endpoints| - 1];
      assert endpoints == front + [e];
      EndLeaves(w, u, front, e);
      EndsSpread(w, net, u, front, port, inner, dst, fuel);
      EndsOneMore(w, net, u, front, e, port, inner, dst, fuel);
    }
  }

  /** What one more endpoint adds to the copies and to who is due one. */
  lemma EndsGrow(front: seq<Endpoint>, e: Endpoint, u: Node, port: int, inner: seq<int>)
    ensures ToEnds(PortsAt(front + [e], u), port, inner)
         == if e.switch == u && e.port != port
            then ToEnds(PortsAt(front, u), port, inner) + [Out(e.port, [e.vlan] + inner)]
            else ToEnds(PortsAt(front, u), port, inner)
    ensures DueBeside(front + [e], u, port, inner)
         == if e.switch == u && e.port != port then DueBeside(front, u, port, inner) + multiset{CopyFor(e, inner)}
            else DueBeside(front, u, port, inner)
  {
    var all := front + [e];
    assert all[..|all| - 1] == front;
    if e.switch == u {
      var ports := PortsAt(all, u);
      assert ports == PortsAt(front, u) + [(e.port, e.vlan)] && ports[..|ports| - 1] == PortsAt(front, u);
    } else {
      assert PortsAt(all, u) == PortsAt(front, u);
    }
  }

  // ----- Spreading along the tree -----

  /** The neighbours on other ports. */
  function Rest(w: Wiring, u: Node, vs: seq<Node>, port: int): seq<Node>
    requires AllLinked(w, u, vs)
  {
    if vs == [] then [] else
      assert forall i :: 0 <= i < |vs[..|vs| - 1]| ==> vs[..|vs| - 1][i] == vs[i];
      Rest(w, u, vs[..|vs| - 1], port) + if PortTo(w, u, vs[|vs| - 1]) != port then [vs[|vs| - 1]] else []
  }

  lemma {:induction false} RestIs(w: Wiring, u: Node, vs: seq<Node>, port: int)
    requires AllLinked(w, u, vs)
    ensures forall v :: v in Rest(w, u, vs, port) <==> v in vs && PortTo(w, u, v) != port
    ensures Distinct(vs) ==> Distinct(Rest(w, u, vs, port))
    decreases |vs|
  {
    if vs != [] {
      var front, last := vs[..|vs| - 1], vs[|vs| - 1];
      assert vs == front + [last] && AllLinked(w, u, front);
      RestIs(w, u, front, port);
      assert Distinct(vs) ==> Distinct(front) && last !in front;
    }
  }

  ghost function SideOf(lan: Lan, v: Node, u: Node): set<Node> {
    Side(lan.nodes, lan.edges, v, u)
  }

  /** A frame that may cross `fuel` links and crosses the edge from u to v reaches exactly the endpoints behind
      it, and crosses every edge behind it exactly once. */
  ghost predicate Reaches(lan: Lan, net: (Node, Frame) -> seq<Out>, u: Node, v: Node, inner: seq<int>, dst: int,
                          fuel: nat) {
    && fuel >= 1 && Linked(lan.w, v, u) && SideOf(lan, v, u) != {}
    && Flood(lan.w, net, v, Frame(PortTo(lan.w, v, u), [lan.iv] + inner, dst), fuel - 1)
       == Spread(Due(lan.endpoints, SideOf(lan, v, u), inner), multiset(Inner(lan.edges, SideOf(lan, v, u))))
  }

  /** One more neighbour: its side is added to what has been reached. */
  lemma OneSide(lan: Lan, net: (Node, Frame) -> seq<Out>, u: Node, v: Node, inner: seq<int>, dst: int, fuel: nat)
    requires LanOk(lan) && Pair(u, v) in lan.edges && Reaches(lan, net, u, v, inner, dst, fuel)
    ensures Linked(lan.w, u, v)
    ensures FloodOut(lan.w, net, u, Out(PortTo(lan.w, u, v), [lan.iv] + inner), dst, fuel)
         == Spread(Due(lan.endpoints, SideOf(lan, v, u), inner), Over(lan, u, v))
  {
    EdgeLink(lan, u, v);
  }

  /** The edge from u to v and the edges behind it. */
  ghost function Over(lan: Lan, u: Node, v: Node): multiset<Edge> {
    multiset(Inner(lan.edges, SideOf(lan, v, u))) + multiset{Pair(u, v)}
  }

  /** What lies behind one more neighbour adds up. */
  ghost predicate Joins(lan: Lan, u: Node, vs: seq<Node>, v: Node, inner: seq<int>) {
    var before, after := Behind(lan.nodes, lan.edges, u, vs), Behind(lan.nodes, lan.edges, u, vs + [v]);
    && multiset(Inner(lan.edges, {u} + after)) == multiset(Inner(lan.edges, {u} + before)) + Over(lan, u, v)
    && Due(lan.endpoints, after, inner)
       == Due(lan.endpoints, before, inner) + Due(lan.endpoints, SideOf(lan, v, u), inner)
  }

  lemma JoinSides(lan: Lan, u: Node, vs: seq<Node>, v: Node, inner: seq<int>)
    requires LanOk(lan) && Distinct(vs + [v]) && forall x :: x in vs + [v] ==> Pair(u, x) in lan.edges
    ensures Joins(lan, u, vs, v, inner)
  {
    var all := vs + [v];
    assert all[..|all| - 1] == vs && all[|all| - 1] == v;
    BehindNew(lan.nodes, lan.edges, u, all);
    NotBehind(lan.nodes, lan.edges, u, vs);
    assert v in all;
    assert Pair(v, u) == Pair(u, v);
    SideEnds(lan.nodes, lan.edges, v, u);
    InnerAdds(lan.nodes, lan.edges, u, Behind(lan.nodes, lan.edges, u, vs), v);
    DueUnion(lan.endpoints, Behind(lan.nodes, lan.edges, u, vs), SideOf(lan, v, u), inner);
  }

  /** Every listed neighbour is reached that way. */
  ghost predicate AllReach(lan: Lan, net: (Node, Frame) -> seq<Out>, u: Node, vs: seq<Node>, inner: seq<int>, dst: int,
                           fuel: nat) {
    forall i :: 0 <= i < |vs| ==> Reaches(lan, net, u, vs[i], inner, dst, fuel)
  }

  lemma FrontReaches(lan: Lan, net: (Node, Frame) -> seq<Out>, u: Node, front: seq<Node>, vs: seq<Node>,
                     inner: seq<int>, dst: int, fuel: nat)
    requires AllReach(lan, net, u, vs, inner, dst, fuel) && front <= vs
    ensures AllReach(lan, net, u, front, inner, dst, fuel)
  {
    forall i | 0 <= i < |front| ensures Reaches(lan, net, u, front[i], inner, dst, fuel) {
      assert front[i] == vs[i];
    }
  }

  /** What the copies for the tree ports towards `vs` reach together. */
  ghost predicate PortsReach(lan: Lan, net: (Node, Frame) -> seq<Out>, u: Node, vs: seq<Node>, port: int,
                             inner: seq<int>, dst: int, fuel: nat)
    requires AllLinked(lan.w, u, vs)
  {
    var behind := Behind(lan.nodes, lan.edges, u, Rest(lan.w, u, vs, port));
    FloodOuts(lan.w, net, u, ToPorts(PortsTo(lan.w, u, vs), port, [lan.iv] + inner), dst, fuel)
    == Spread(Due(lan.endpoints, behind, inner), multiset(Inner(lan.edges, {u} + behind)))
  }

  /** The lists grow together. */
  lemma ListsGrow(w: Wiring, u: Node, front: seq<Node>, v: Node, port: int, tags: seq<int>)
    requires AllLinked(w, u, front) && Linked(w, u, v)
    ensures AllLinked(w, u, front + [v])
    ensures var rest := Rest(w, u, front, port);
            Rest(w, u, front + [v], port) == if PortTo(w, u, v) != port then rest + [v] else rest
    ensures var outs := ToPorts(PortsTo(w, u, front), port, tags);
            ToPorts(PortsTo(w, u, front + [v]), port, tags)
              == if PortTo(w, u, v) != port then outs + [Out(PortTo(w, u, v), tags)] else outs
  {
    var vs := front + [v];
    assert vs[..|vs| - 1] == front;
    var ports := PortsTo(w, u, vs);
    assert ports[..|ports| - 1] == PortsTo(w, u, front) && ports[|ports| - 1] == PortTo(w, u, v);
  }

  lemma RestOneMore(w: Wiring, E: set<Edge>, u: Node, front: seq<Node>, v: Node, port: int)
    requires AllLinked(w, u, front) && Distinct(front + [v]) && forall x :: x in front + [v] ==> Pair(u, x) in E
    ensures Distinct(Rest(w, u, front, port) + [v])
            && forall x :: x in Rest(w, u, front, port) + [v] ==> Pair(u, x) in E
  {
    RestIs(w, u, front, port);
    var all := front + [v];
    assert all[|front|] == v && v in all && forall i :: 0 <= i < |front| ==> all[i] == front[i];
    assert v !in front;
    assert Distinct(front);
    forall x | x in front ensures Pair(u, x) in E { assert x in all; }
  }

  lemma PortsOneMore(lan: Lan, net: (Node, Frame) -> seq<Out>, u: Node, front: seq<Node>, v: Node, port: int,
                     inner: seq<int>, dst: int, fuel: nat)
    requires AllLinked(lan.w, u, front) && Linked(lan.w, u, v) && PortsReach(lan, net, u, front, port, inner, dst, fuel)
    requires PortTo(lan.w, u, v) != port ==>
               && Joins(lan, u, Rest(lan.w, u, front, port), v, inner)
               && FloodOut(lan.w, net, u, Out(PortTo(lan.w, u, v), [lan.iv] + inner), dst, fuel)
                  == Spread(Due(lan.endpoints, SideOf(lan, v, u), inner), Over(lan, u, v))
    ensures AllLinked(lan.w, u, front + [v]) && PortsReach(lan, net, u, front + [v], port, inner, dst, fuel)
  {
    var tags, rest := [lan.iv] + inner, Rest(lan.w, u, front, port);
    var outs := ToPorts(PortsTo(lan.w, u, front), port, tags);
    ListsGrow(lan.w, u, front, v, port, tags);
    if PortTo(lan.w, u, v) != port {
      var out, behind := Out(PortTo(lan.w, u, v), tags), Behind(lan.nodes, lan.edges, u, rest);
      FloodLast(lan.w, net, u, outs, out, dst, fuel);
      AddUp(FloodOuts(lan.w, net, u, outs, dst, fuel), FloodOut(lan.w, net, u, out, dst, fuel),
            Due(lan.endpoints, behind, inner), multiset(Inner(lan.edges, {u} + behind)),
            Due(lan.endpoints, SideOf(lan, v, u), inner), Over(lan, u, v));
    }
  }

  lemma AddUp(a: Spread, b: Spread, d: multiset<Delivery>, m: multiset<Edge>, e: multiset<Delivery>,
              n: multiset<Edge>)
    requires a == Spread(d, m) && b == Spread(e, n)
    ensures Both(a, b) == Spread(d + e, m + n)
  {
  }

  lemma PortsNext(lan: Lan, net: (Node, Frame) -> seq<Out>, u: Node, front: seq<Node>, v: Node, port: int,
                  inner: seq<int>, dst: int, fuel: nat)
    requires LanOk(lan) && AllLinked(lan.w, u, front) && Linked(lan.w, u, v) && Neighbors(lan, u, front + [v])
    requires PortsReach(lan, net, u, front, port, inner, dst, fuel)
    requires PortTo(lan.w, u, v) != port ==> Reaches(lan, net, u, v, inner, dst, fuel)
    ensures AllLinked(lan.w, u, front + [v]) && PortsReach(lan, net, u, front + [v], port, inner, dst, fuel)
  {
    if PortTo(lan.w, u, v) != port {
      assert v in front + [v];
      OneSide(lan, net, u, v, inner, dst, fuel);
      RestOneMore(lan.w, lan.edges, u, front, v, port);
      JoinSides(lan, u, Rest(lan.w, u, front, port), v, inner);
    }
    PortsOneMore(lan, net, u, front, v, port, inner, dst, fuel);
  }

  lemma PortsNone(lan: Lan, net: (Node, Frame) -> seq<Out>, u: Node, port: int, inner: seq<int>, dst: int, fuel: nat)
    requires LanOk(lan)
    ensures PortsReach(lan, net, u, [], port, inner, dst, fuel)
  {
    DueNowhere(lan.endpoints, inner);
    AloneHasNone(lan.nodes, lan.edges, u);
    assert {u} + {} == {u};
  }

  /** Neighbours of u on the tree, each once. */
  ghost predicate Neighbors(lan: Lan, u: Node, vs: seq<Node>) {
    AllLinked(lan.w, u, vs) && Distinct(vs) && forall v :: v in vs ==> Pair(u, v) in lan.edges
  }

  lemma FrontNeighbors(lan: Lan, u: Node, front: seq<Node>, v: Node)
    requires Neighbors(lan, u, front + [v])
    ensures Neighbors(lan, u, front) && Linked(lan.w, u, v)
  {
    var all := front + [v];
    assert all[|front|] == v && forall i :: 0 <= i < |front| ==> all[i] == front[i];
    forall x | x in front ensures Pair(u, x) in lan.edges { assert x in all; }
  }

  lemma LastReaches(lan: Lan, net: (Node, Frame) -> seq<Out>, u: Node, front: seq<Node>, v: Node, port: int,
                    inner: seq<int>, dst: int, fuel: nat)
    requires AllLinked(lan.w, u, front) && Linked(lan.w, u, v) && AllLinked(lan.w, u, front + [v])
    requires AllReach(lan, net, u, Rest(lan.w, u, front + [v], port), inner, dst, fuel)
    ensures AllReach(lan, net, u, Rest(lan.w, u, front, port), inner, dst, fuel)
    ensures PortTo(lan.w, u, v) != port ==> Reaches(lan, net, u, v, inner, dst, fuel)
  {
    var rest, before := Rest(lan.w, u, front + [v], port), Rest(lan.w, u, front, port);
    ListsGrow(lan.w, u, front, v, port, []);
    FrontReaches(lan, net, u, before, rest, inner, dst, fuel);
    if PortTo(lan.w, u, v) != port { assert rest[|before|] == v; }
  }

  lemma {:induction false} PortsSpread(lan: Lan, net: (Node, Frame) -> seq<Out>, u: Node, vs: seq<Node>, port: int,
                                       inner: seq<int>, dst: int, fuel: nat)
    requires LanOk(lan) && Neighbors(lan, u, vs)
    requires AllReach(lan, net, u, Rest(lan.w, u, vs, port), inner, dst, fuel)
    ensures PortsReach(lan, net, u, vs, port, inner, dst, fuel)
    decreases |vs|
  {
    if vs == [] {
      PortsNone(lan, net, u, port, inner, dst, fuel);
    } else {
      var front, v := vs[..|vs| - 1], vs[|vs| - 1];
      assert vs == front + [v];
      FrontNeighbors(lan, u, front, v);
      LastReaches(lan, net, u, front, v, port, inner, dst, fuel);
      PortsSpread(lan, net, u, front, port, inner, dst, fuel);
      PortsNext(lan, net, u, front, v, port, inner, dst, fuel);
    }
  }

  /** What a switch of the LAN does with what comes in on its tree ports. */
  ghost predicate AllPass(lan: Lan, net: (Node, Frame) -> seq<Out>, inner: seq<int>, dst: int) {
    forall u, p {:trigger Passes(lan, net, u, p, inner, dst)} :: Pair(u, p) in lan.edges ==>
      Passes(lan, net, u, p, inner, dst)
  }

  lemma EndsOk(lan: Lan, u: Node)
    requires LanOk(lan) && u in lan.w
    ensures EndsLeave(lan.w, u, lan.endpoints)
  {
    forall i | 0 <= i < |lan.endpoints| && lan.endpoints[i].switch == u
      ensures Across(lan.w, u, lan.endpoints[i].port) == None && lan.endpoints[i].port != OFPP_CONTROLLER
    {
      EndpointEdge(lan, i);
    }
  }

  /** Everything a switch floods, put together. */
  lemma OutsSpread(lan: Lan, net: (Node, Frame) -> seq<Out>, u: Node, port: int, inner: seq<int>, dst: int, fuel: nat)
    requires LanOk(lan) && u in lan.nodes && AllLinked(lan.w, u, Around(lan.hops, u))
    requires AllReach(lan, net, u, Rest(lan.w, u, Around(lan.hops, u), port), inner, dst, fuel)
    ensures var behind := Behind(lan.nodes, lan.edges, u, Rest(lan.w, u, Around(lan.hops, u), port));
            FloodOuts(lan.w, net, u, OutsFrom(lan, u, port, inner), dst, fuel)
            == Spread(Due(lan.endpoints, behind, inner) + DueBeside(lan.endpoints, u, port, inner),
                      multiset(Inner(lan.edges, {u} + behind)))
  {
    var vs := Around(lan.hops, u);
    Neighborhood(lan, u);
    PortsSpread(lan, net, u, vs, port, inner, dst, fuel);
    EndsOk(lan, u);
    EndsSpread(lan.w, net, u, lan.endpoints, port, inner, dst, fuel);
    FloodConcat(lan.w, net, u, ToPorts(PortsTo(lan.w, u, vs), port, [lan.iv] + inner),
                ToEnds(PortsAt(lan.endpoints, u), port, inner), dst, fuel);
  }

  /** The neighbours a frame from p is passed to. */
  lemma RestButSource(lan: Lan, u: Node, p: Node)
    requires LanOk(lan) && Pair(u, p) in lan.edges
    ensures AllLinked(lan.w, u, Around(lan.hops, u)) && Linked(lan.w, u, p)
    ensures NeighborsBut(lan.nodes, lan.edges, u, p, Rest(lan.w, u, Around(lan.hops, u), PortTo(lan.w, u, p)))
  {
    Neighborhood(lan, u);
    EdgeLink(lan, u, p);
    var vs, port := Around(lan.hops, u), PortTo(lan.w, u, p);
    RestIs(lan.w, u, vs, port);
    forall v ensures v in Rest(lan.w, u, vs, port) <==> Pair(u, v) in lan.edges && v != p {
      if Pair(u, v) in lan.edges && v != p { PortsApart(lan, u, v, p); }
    }
  }

  lemma Bigger(S: set<Node>, u: Node, B: set<Node>, A: set<Node>)
    requires S == {u} + B && u !in B && A <= B
    ensures |S| == |B| + 1 && |A| <= |B|
  {
    var rest := B - A;
    assert B == A + rest && A !! rest;
  }

  lemma InsideBehind(lan: Lan, u: Node, vs: seq<Node>, v: Node)
    requires v in vs
    ensures SideOf(lan, v, u) <= Behind(lan.nodes, lan.edges, u, vs)
  {
    forall x | x in SideOf(lan, v, u) ensures x in Behind(lan.nodes, lan.edges, u, vs) {
      InBehind(lan.nodes, lan.edges, u, vs, x);
    }
  }

  /** The sides behind a switch are smaller than the switch's own side. */
  lemma SmallerSide(lan: Lan, u: Node, p: Node, v: Node)
    requires LanOk(lan) && Pair(u, p) in lan.edges && AllLinked(lan.w, u, Around(lan.hops, u)) && Linked(lan.w, u, p)
    requires v in Rest(lan.w, u, Around(lan.hops, u), PortTo(lan.w, u, p))
    ensures Pair(v, u) in lan.edges && |SideOf(lan, v, u)| < |SideOf(lan, u, p)|
  {
    var rest := Rest(lan.w, u, Around(lan.hops, u), PortTo(lan.w, u, p));
    RestButSource(lan, u, p);
    assert Pair(v, u) == Pair(u, v);
    SideSplits(lan.nodes, lan.edges, u, p, rest);
    InsideBehind(lan, u, rest, v);
    Bigger(SideOf(lan, u, p), u, Behind(lan.nodes, lan.edges, u, rest), SideOf(lan, v, u));
  }

  lemma SideNotEmpty(lan: Lan, u: Node, p: Node)
    requires LanOk(lan) && Pair(u, p) in lan.edges
    ensures |SideOf(lan, u, p)| >= 1
  {
    SideEnds(lan.nodes, lan.edges, u, p);
  }

  lemma RestLinked(lan: Lan, u: Node, p: Node)
    requires LanOk(lan) && Pair(u, p) in lan.edges
    ensures AllLinked(lan.w, u, Around(lan.hops, u)) && Linked(lan.w, u, p)
  {
    RestButSource(lan, u, p);
  }

  /** Across one edge: whatever lies behind it is reached. */
  lemma {:induction false} SideReached(lan: Lan, net: (Node, Frame) -> seq<Out>, p: Node, u: Node, inner: seq<int>,
                                       dst: int, fuel: nat)
    requires LanOk(lan) && AllPass(lan, net, inner, dst) && Pair(u, p) in lan.edges && fuel >= |SideOf(lan, u, p)|
    ensures Reaches(lan, net, p, u, inner, dst, fuel)
    decreases fuel, 0
  {
    SideNotEmpty(lan, u, p);
    RestLinked(lan, u, p);
    RestReached(lan, net, p, u, inner, dst, fuel - 1);
    SideDue(lan, net, p, u, inner, dst, fuel - 1);
  }

  lemma {:induction false} RestReached(lan: Lan, net: (Node, Frame) -> seq<Out>, p: Node, u: Node, inner: seq<int>,
                                       dst: int, fuel: nat)
    requires LanOk(lan) && AllPass(lan, net, inner, dst) && Pair(u, p) in lan.edges && fuel + 1 >= |SideOf(lan, u, p)|
    requires AllLinked(lan.w, u, Around(lan.hops, u)) && Linked(lan.w, u, p)
    ensures AllReach(lan, net, u, Rest(lan.w, u, Around(lan.hops, u), PortTo(lan.w, u, p)), inner, dst, fuel)
    decreases fuel, 1
  {
    var rest := Rest(lan.w, u, Around(lan.hops, u), PortTo(lan.w, u, p));
    forall i | 0 <= i < |rest| ensures Reaches(lan, net, u, rest[i], inner, dst, fuel) {
      SmallerSide(lan, u, p, rest[i]);
      SideReached(lan, net, u, rest[i], inner, dst, fuel);
    }
  }

  /** The switch behind the edge adds its own endpoints to what its other neighbours reach. */
  lemma SideDue(lan: Lan, net: (Node, Frame) -> seq<Out>, p: Node, u: Node, inner: seq<int>, dst: int, fuel: nat)
    requires LanOk(lan) && AllPass(lan, net, inner, dst) && Pair(u, p) in lan.edges
    requires AllLinked(lan.w, u, Around(lan.hops, u)) && Linked(lan.w, u, p)
    requires AllReach(lan, net, u, Rest(lan.w, u, Around(lan.hops, u), PortTo(lan.w, u, p)), inner, dst, fuel)
    ensures Reaches(lan, net, p, u, inner, dst, fuel + 1)
  {
    var port := PortTo(lan.w, u, p);
    var rest := Rest(lan.w, u, Around(lan.hops, u), port);
    var behind := Behind(lan.nodes, lan.edges, u, rest);
    EdgeLink(lan, u, p);
    RestButSource(lan, u, p);
    SideSplits(lan.nodes, lan.edges, u, p, rest);
    Bigger(SideOf(lan, u, p), u, behind, behind);
    OutsSpread(lan, net, u, port, inner, dst, fuel);
    NoEndOnTreePort(lan, u, port);
    DueAtNode(lan.endpoints, u, port, inner);
    DueUnion(lan.endpoints, {u}, behind, inner);
    RegroupBags(Due(lan.endpoints, {u}, inner), Due(lan.endpoints, behind, inner), multiset{});
    assert Passes(lan, net, u, p, inner, dst);
  }

  lemma NoEndOnTreePort(lan: Lan, u: Node, port: int)
    requires LanOk(lan) && u in lan.w && Across(lan.w, u, port).Some?
    ensures forall i :: 0 <= i < |lan.endpoints| && lan.endpoints[i].switch == u ==> lan.endpoints[i].port != port
  {
    EndsOk(lan, u);
  }

  // ----- The theorem -----

  /** One copy for every endpoint that is not on this port of this switch. */
  function DueElsewhere(endpoints: seq<Endpoint>, u: Node, port: int, inner: seq<int>): multiset<Delivery> {
    if endpoints == [] then multiset{} else
      var e := endpoints[|endpoints| - 1];
      DueElsewhere(endpoints[..|endpoints| - 1], u, port, inner)
      + if e.switch == u && e.port == port then multiset{} else multiset{CopyFor(e, inner)}
  }

  lemma {:induction false} DueTogether(endpoints: seq<Endpoint>, nodes: set<Node>, u: Node, B: set<Node>, port: int,
                                       inner: seq<int>)
    requires nodes == {u} + B && u !in B && forall i :: 0 <= i < |endpoints| ==> endpoints[i].switch in nodes
    ensures Due(endpoints, B, inner) + DueBeside(endpoints, u, port, inner) == DueElsewhere(endpoints, u, port, inner)
    decreases |endpoints|
  {
    if endpoints != [] {
      DueTogether(endpoints[..|endpoints| - 1], nodes, u, B, port, inner);
      assert endpoints[|endpoints| - 1].switch in nodes;
    }
  }

  /** A frame put in at an endpoint reaches every endpoint that is not on the same port of the same switch,
      exactly once and on that endpoint's VLAN, reaches nothing else, crosses each edge of the tree exactly
      once, and no copy of it crosses more links than the tree has edges. */
  lemma FloodReaches(lan: Lan, net: (Node, Frame) -> seq<Out>, e: Endpoint, inner: seq<int>, dst: int)
    requires LanOk(lan) && AllPass(lan, net, inner, dst) && e in lan.endpoints && Accepts(lan, net, e, inner, dst)
    ensures Flood(lan.w, net, e.switch, Frame(e.port, [e.vlan] + inner, dst), |lan.edges|)
         == Spread(DueElsewhere(lan.endpoints, e.switch, e.port, inner), multiset(lan.edges))
  {
    var u, fuel := e.switch, |lan.edges|;
    var k := EndpointIndex(lan, e);
    var vs := Around(lan.hops, u);
    Neighborhood(lan, u);
    AllRest(lan, u, e.port);
    var behind := Behind(lan.nodes, lan.edges, u, vs);
    TreeSplits(lan.nodes, lan.edges, u, vs);
    TreeEdgeCount(lan.nodes, lan.edges);
    Bigger(lan.nodes, u, behind, behind);
    forall i | 0 <= i < |vs| ensures Reaches(lan, net, u, vs[i], inner, dst, fuel) {
      assert vs[i] in vs && Pair(vs[i], u) == Pair(u, vs[i]);
      InsideBehind(lan, u, vs, vs[i]);
      Bigger(lan.nodes, u, behind, SideOf(lan, vs[i], u));
      SideReached(lan, net, u, vs[i], inner, dst, fuel);
    }
    OutsSpread(lan, net, u, e.port, inner, dst, fuel);
    FromSource(lan, net, e, inner, dst, fuel);
    AllOnTree(lan);
    DueTogether(lan.endpoints, lan.nodes, u, behind, e.port, inner);
    InnerAll(lan);
  }

  lemma InnerAll(lan: Lan)
    requires LanOk(lan)
    ensures Inner(lan.edges, lan.nodes) == lan.edges
  {
    forall e | e in lan.edges ensures e <= lan.nodes { var a, b := EdgeEnds(lan.nodes, lan.edges, e); }
  }

  lemma AllOnTree(lan: Lan)
    requires LanOk(lan)
    ensures forall i :: 0 <= i < |lan.endpoints| ==> lan.endpoints[i].switch in lan.nodes
  {
    forall i | 0 <= i < |lan.endpoints| ensures lan.endpoints[i].switch in lan.nodes { EndpointEdge(lan, i); }
  }

  /** The controller's copy adds nothing. */
  lemma FromSource(lan: Lan, net: (Node, Frame) -> seq<Out>, e: Endpoint, inner: seq<int>, dst: int, fuel: nat)
    requires Accepts(lan, net, e, inner, dst)
    requires FloodOuts(lan.w, net, e.switch, OutsFrom(lan, e.switch, e.port, inner), dst, fuel).Spread?
    ensures Flood(lan.w, net, e.switch, Frame(e.port, [e.vlan] + inner, dst), fuel)
         == FloodOuts(lan.w, net, e.switch, OutsFrom(lan, e.switch, e.port, inner), dst, fuel)
  {
    var shown, outs := [Out(OFPP_CONTROLLER, [lan.iv] + inner)], OutsFrom(lan, e.switch, e.port, inner);
    ShownOnly(lan.w, net, e.switch, shown[0], dst, fuel);
    FloodConcat(lan.w, net, e.switch, shown, outs, dst, fuel);
    NothingMore(FloodOuts(lan.w, net, e.switch, outs, dst, fuel));
  }

  lemma NothingMore(s: Spread)
    ensures Both(Spread(multiset{}, multiset{}), s) == s
  {
    if s.Spread? { assert multiset{} + s.delivered == s.delivered && multiset{} + s.crossed == s.crossed; }
  }

  lemma ShownOnly(w: Wiring, net: (Node, Frame) -> seq<Out>, u: Node, out: Out, dst: int, fuel: nat)
    requires out.port == OFPP_CONTROLLER
    ensures FloodOuts(w, net, u, [out], dst, fuel) == Spread(multiset{}, multiset{})
  {
    FloodLast(w, net, u, [], out, dst, fuel);
    assert [] + [out] == [out];
  }

  /** From an endpoint port, every tree neighbour gets a copy. */
  lemma AllRest(lan: Lan, u: Node, port: int)
    requires LanOk(lan) && u in lan.w && Across(lan.w, u, port) == None
    ensures AllLinked(lan.w, u, Around(lan.hops, u)) && Rest(lan.w, u, Around(lan.hops, u), port) == Around(lan.hops, u)
  {
    Neighborhood(lan, u);
    forall v | v in Around(lan.hops, u) ensures Linked(lan.w, u, v) && PortTo(lan.w, u, v) != port {
      EdgeLink(lan, u, v);
    }
    RestAll(lan.w, u, Around(lan.hops, u), port);
  }

  lemma {:induction false} RestAll(w: Wiring, u: Node, vs: seq<Node>, port: int)
    requires AllLinked(w, u, vs) && forall v :: v in vs ==> Linked(w, u, v) && PortTo(w, u, v) != port
    ensures Rest(w, u, vs, port) == vs
    decreases |vs|
  {
    if vs != [] {
      var front, last := vs[..|vs| - 1], vs[|vs| - 1];
      assert vs == front + [last] && AllLinked(w, u, front) && last in vs;
      RestAll(w, u, front, port);
    }
  }

  /** The installed flows do all this. */
  lemma LanFloods(lan: Lan, cookies: Node -> int, owns: Node -> seq<Flow>, flows: Node -> seq<Flow>, e: Endpoint,
                  inner: seq<int>, dst: int)
    requires LanOk(lan) && AllServe(lan, cookies, owns, flows) && e in lan.endpoints
    ensures Flood(lan.w, Pipelines(flows), e.switch, Frame(e.port, [e.vlan] + inner, dst), |lan.edges|)
         == Spread(DueElsewhere(lan.endpoints, e.switch, e.port, inner), multiset(lan.edges))
  {
    forall u, p | Pair(u, p) in lan.edges ensures Passes(lan, Pipelines(flows), u, p, inner, dst) {
      PassesTree(lan, cookies, owns, flows, u, p, inner, dst);
    }
    AcceptsEndpoint(lan, cookies, owns, flows, e, inner, dst);
    FloodReaches(lan, Pipelines(flows), e, inner, dst);
  }

  /** Nothing comes back out of the port the frame came in on. */
  lemma {:induction false} NeverBack(endpoints: seq<Endpoint>, u: Node, port: int, inner: seq<int>)
    ensures forall d :: d in DueElsewhere(endpoints, u, port, inner) ==> d.switch != u || d.port != port
    decreases |endpoints|
  {
    if endpoints != [] { NeverBack(endpoints[..|endpoints| - 1], u, port, inner); }
  }

  /** One copy for each of these endpoints. */
  function Copies(endpoints: seq<Endpoint>, inner: seq<int>): multiset<Delivery> {
    if endpoints == [] then multiset{} else
      Copies(endpoints[..|endpoints| - 1], inner) + multiset{CopyFor(endpoints[|endpoints| - 1], inner)}
  }

  lemma {:induction false} CopiesHave(endpoints: seq<Endpoint>, inner: seq<int>, j: nat)
    requires j < |endpoints|
    ensures CopyFor(endpoints[j], inner) in Copies(endpoints, inner)
    decreases |endpoints|
  {
    if j < |endpoints| - 1 { CopiesHave(endpoints[..|endpoints| - 1], inner, j); }
  }

  lemma LastEndpoint(front: seq<Endpoint>, e: Endpoint, u: Node, port: int, inner: seq<int>)
    ensures Copies(front + [e], inner) == Copies(front, inner) + multiset{CopyFor(e, inner)}
    ensures e.switch != u || e.port != port ==>
              DueElsewhere(front + [e], u, port, inner)
                == DueElsewhere(front, u, port, inner) + multiset{CopyFor(e, inner)}
    ensures e.switch == u && e.port == port ==>
            DueElsewhere(front + [e], u, port, inner) == DueElsewhere(front, u, port, inner)
  {
    assert (front + [e])[..|front|] == front;
  }

  predicate OffPort(endpoints: seq<Endpoint>, u: Node, port: int) {
    forall i :: 0 <= i < |endpoints| ==> endpoints[i].switch != u || endpoints[i].port != port
  }

  lemma {:induction false} ElsewhereConcat(a: seq<Endpoint>, b: seq<Endpoint>, u: Node, port: int, inner: seq<int>)
    requires OffPort(b, u, port)
    ensures DueElsewhere(a + b, u, port, inner) == DueElsewhere(a, u, port, inner) + Copies(b, inner)
    decreases |b|
  {
    if b == [] {
      assert a + b == a;
    } else {
      var front, e := b[..|b| - 1], b[|b| - 1];
      assert b == front + [e] && a + b == (a + front) + [e];
      ElsewhereConcat(a, front, u, port, inner);
      LastEndpoint(a + front, e, u, port, inner);
      LastEndpoint(front, e, u, port, inner);
      RegroupBags(DueElsewhere(a, u, port, inner), Copies(front, inner), multiset{CopyFor(e, inner)});
    }
  }

  lemma {:induction false} CopiesConcat(a: seq<Endpoint>, b: seq<Endpoint>, inner: seq<int>)
    ensures Copies(a + b, inner) == Copies(a, inner) + Copies(b, inner)
    decreases |b|
  {
    if b == [] {
      assert a + b == a;
    } else {
      var front, e := b[..|b| - 1], b[|b| - 1];
      assert b == front + [e] && a + b == (a + front) + [e];
      CopiesConcat(a, front, inner);
      LastEndpoint(a + front, e, e.switch, e.port, inner);
      LastEndpoint(front, e, e.switch, e.port, inner);
      RegroupBags(Copies(a, inner), Copies(front, inner), multiset{CopyFor(e, inner)});
    }
  }

  /** The other endpoints of the LAN. */
  function Without(endpoints: seq<Endpoint>, i: nat): seq<Endpoint>
    requires i < |endpoints|
  {
    endpoints[..i] + endpoints[i + 1..]
  }

  predicate SharesPort(endpoints: seq<Endpoint>, i: nat, j: int)
    requires i < |endpoints|
  {
    0 <= j < |endpoints| && j != i && endpoints[j].switch == endpoints[i].switch
      && endpoints[j].port == endpoints[i].port
  }

  lemma SharedGetsNone(endpoints: seq<Endpoint>, i: nat, j: nat, inner: seq<int>)
    requires i < |endpoints| && SharesPort(endpoints, i, j)
    ensures CopyFor(endpoints[j], inner) in Copies(Without(endpoints, i), inner)
    ensures CopyFor(endpoints[j], inner) !in DueElsewhere(endpoints, endpoints[i].switch, endpoints[i].port, inner)
  {
    var k := if j < i then j else j - 1;
    assert Without(endpoints, i)[k] == endpoints[j];
    CopiesHave(Without(endpoints, i), inner, k);
    NeverBack(endpoints, endpoints[i].switch, endpoints[i].port, inner);
  }

  lemma AllOff(endpoints: seq<Endpoint>, u: Node, port: int, inner: seq<int>)
    requires OffPort(endpoints, u, port)
    ensures DueElsewhere(endpoints, u, port, inner) == Copies(endpoints, inner)
  {
    ElsewhereConcat([], endpoints, u, port, inner);
    assert [] + endpoints == endpoints;
  }

  lemma OthersOff(endpoints: seq<Endpoint>, i: nat)
    requires i < |endpoints| && forall j :: !SharesPort(endpoints, i, j)
    ensures OffPort(endpoints[..i], endpoints[i].switch, endpoints[i].port)
    ensures OffPort(endpoints[i + 1..], endpoints[i].switch, endpoints[i].port)
  {
    var u, port, b := endpoints[i].switch, endpoints[i].port, endpoints[i + 1..];
    forall j | 0 <= j < |b| ensures b[j].switch != u || b[j].port != port {
      assert !SharesPort(endpoints, i, i + 1 + j);
    }
    forall j | 0 <= j < i ensures endpoints[..i][j].switch != u || endpoints[..i][j].port != port {
      assert !SharesPort(endpoints, i, j);
    }
  }

  lemma UnsharedAllGet(endpoints: seq<Endpoint>, i: nat, inner: seq<int>)
    requires i < |endpoints| && forall j :: !SharesPort(endpoints, i, j)
    ensures DueElsewhere(endpoints, endpoints[i].switch, endpoints[i].port, inner)
         == Copies(Without(endpoints, i), inner)
  {
    var e, a, b := endpoints[i], endpoints[..i], endpoints[i + 1..];
    OthersOff(endpoints, i);
    assert endpoints == (a + [e]) + b;
    ElsewhereConcat(a + [e], b, e.switch, e.port, inner);
    LastEndpoint(a, e, e.switch, e.port, inner);
    AllOff(a, e.switch, e.port, inner);
    CopiesConcat(a, b, inner);
  }

  /** Every other endpoint gets exactly one copy, and nobody else any, if and only if no other endpoint
      shares the port the frame came in on. */
  lemma EveryOtherIff(endpoints: seq<Endpoint>, i: nat, inner: seq<int>)
    requires i < |endpoints|
    ensures DueElsewhere(endpoints, endpoints[i].switch, endpoints[i].port, inner)
            == Copies(Without(endpoints, i), inner)
       <==> forall j :: !SharesPort(endpoints, i, j)
  {
    if j :| SharesPort(endpoints, i, j) {
      SharedGetsNone(endpoints, i, j, inner);
    } else {
      UnsharedAllGet(endpoints, i, inner);
    }
  }

  /** Two endpoints on one port do not hear each other. */
  lemma NeighborMisses(a: Node, inner: seq<int>)
    ensures var endpoints := [Endpoint(a, 1, 10), Endpoint(a, 1, 20)];
            && CopyFor(endpoints[1], inner) in Copies(Without(endpoints, 0), inner)
            && CopyFor(endpoints[1], inner) !in DueElsewhere(endpoints, a, 1, inner)
  {
    SharedGetsNone([Endpoint(a, 1, 10), Endpoint(a, 1, 20)], 0, 1, inner);
  }
}
