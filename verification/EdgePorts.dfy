/** The flows a switch carries besides those of tunnels and multipoint LANs: its starting rules, one flow for
    every edge port, learned destinations and flood trees. A LAN's rule prevails over all of them. */
module EdgePorts {
  import opened Graphs
  import opened PathResources
  import opened OpenFlow
  import opened RyuTranslate
  import opened L2Multipoints
  import opened MultipointFlows
  import opened Flooding

  predicate LeadsOut(w: Wiring, c: Cable) {
    c.neighbor !in w
  }

  /** The ports of a switch whose neighbour is not a switch, in the order they are listed. */
  function PortsOut(w: Wiring, cables: seq<Cable>): seq<int> {
    if cables == [] then [] else
      var last := cables[|cables| - 1];
      PortsOut(w, cables[..|cables| - 1]) + if LeadsOut(w, last) then [last.port] else []
  }

  class EdgePortPolicy {
    const switch: Node
    var breakdown: seq<int>

    constructor (switch: Node)
      ensures this.switch == switch
    {
      this.switch := switch;
      breakdown := [];
    }

    /** One rule for every edge port of the switch. */
    method BreakdownRule(w: Wiring)
      requires switch in w
      modifies this
      ensures breakdown == PortsOut(w, w[switch])
    {
      breakdown := [];
      var cables := w[switch];
      for i := 0 to |cables|
        invariant breakdown == PortsOut(w, cables[..i])
      {
        assert cables[..i + 1][..i] == cables[..i];
        if cables[i].neighbor in w {
          continue;
        }
        breakdown := breakdown + [cables[i].port];
      }
      assert cables[..|cables|] == cables;
    }
  }

  lemma {:induction false} PortsOutAre(w: Wiring, cables: seq<Cable>, p: int)
    ensures p in PortsOut(w, cables) <==> exists i :: 0 <= i < |cables| && LeadsOut(w, cables[i]) && cables[i].port == p
    decreases |cables|
  {
    if cables != [] {
      var front := cables[..|cables| - 1];
      PortsOutAre(w, front, p);
      if i :| 0 <= i < |cables| && LeadsOut(w, cables[i]) && cables[i].port == p {
        if i < |front| { assert LeadsOut(w, front[i]); }
      }
      if i :| 0 <= i < |front| && LeadsOut(w, front[i]) && front[i].port == p { assert LeadsOut(w, cables[i]); }
      if LeadsOut(w, cables[|front|]) { assert cables[|front|] == cables[|cables| - 1]; }
    }
  }

  /** A port towards a switch is not an edge port. */
  lemma SwitchPortsStay(w: Wiring, u: Node, v: Node)
    requires WiringOk(w) && Linked(w, u, v) && v in w
    ensures PortTo(w, u, v) !in PortsOut(w, w[u])
  {
    var p := PortTo(w, u, v);
    PortsOutAre(w, w[u], p);
    FirstToFinds(w[u], v);
    assert CablesOk(w, u);
  }

  // ----- What a deployed switch carries -----

  predicate IsEdgePortFlow(w: Wiring, u: Node, x: Flow) {
    u in w && x.on.inPort.Some? && x.on.inPort.value in PortsOut(w, w[u])
      && x == EdgePortFlow(x.cookie, x.on.inPort.value)
  }

  ghost predicate IsLearnedFlow(x: Flow) {
    exists address, port :: x == LearnedFlow(x.cookie, address, port)
  }

  ghost predicate IsFloodTreeFlow(x: Flow) {
    exists ports, port :: x == FloodTreeFlow(x.cookie, ports, port)
  }

  /** The flows of policies that are neither tunnels nor multipoint LANs. */
  ghost predicate Common(w: Wiring, u: Node, base: seq<Flow>) {
    && HasDefaults(base)
    && forall x :: x in base ==> x in Bootstrap(-1) || IsEdgePortFlow(w, u, x) || IsLearnedFlow(x) || IsFloodTreeFlow(x)
  }

  /** On such a switch the LAN's rule prevails. */
  lemma CommonYields(lan: Lan, cookie: int, own: seq<Flow>, base: seq<Flow>, u: Node)
    requires LanOk(lan) && u in lan.nodes && Translated(Rule(lan, u), cookie, own) && Common(lan.w, u, base)
    ensures Serves(lan, cookie, own, base + own, u)
  {
    var rule, flows := Rule(lan, u), base + own;
    forall f | HeardBy(rule, f) ensures Hosts(rule, flows, own, f) {
      forall x | x in flows && Matches(x.on, f) && Concerns(rule, f, x) ensures x in own || x in Bootstrap(-1) {
        if x in base && x !in Bootstrap(-1) {
          NotConcerned(lan, u, base, f, x);
          assert false;
        }
      }
    }
  }

  lemma NotConcerned(lan: Lan, u: Node, base: seq<Flow>, f: Frame, x: Flow)
    requires LanOk(lan) && u in lan.nodes && Common(lan.w, u, base) && HeardBy(Rule(lan, u), f)
    requires x in base && x !in Bootstrap(-1) && Matches(x.on, f)
    ensures !Concerns(Rule(lan, u), f, x)
  {
    if IsEdgePortFlow(lan.w, u, x) && !IsEndPort(Rule(lan, u), f.inPort) {
      TreePortStays(lan, u, f.inPort);
    }
  }

  lemma TreePortStays(lan: Lan, u: Node, port: int)
    requires LanOk(lan) && u in lan.nodes && OnPort(Rule(lan, u), port) && !IsEndPort(Rule(lan, u), port)
    ensures port !in PortsOut(lan.w, lan.w[u])
  {
    RuleShape(lan, u);
    Neighborhood(lan, u);
    var i :| 0 <= i < |Rule(lan, u).flooding| && Rule(lan, u).flooding[i] == port;
    var v := Around(lan.hops, u)[i];
    EdgeLink(lan, u, v);
    SwitchPortsStay(lan.w, u, v);
  }

  /** So a LAN floods as it should on switches that carry all the common flows. */
  lemma DeployedLanFloods(lan: Lan, cookies: Node -> int, owns: Node -> seq<Flow>, bases: Node -> seq<Flow>,
                          e: Endpoint, inner: seq<int>, dst: int)
    requires LanOk(lan) && e in lan.endpoints
    requires forall u {:trigger owns(u)} :: u in lan.nodes ==> Translated(Rule(lan, u), cookies(u), owns(u))
    requires forall u {:trigger bases(u)} :: u in lan.nodes ==> Common(lan.w, u, bases(u))
    ensures Flood(lan.w, Pipelines(u => bases(u) + owns(u)), e.switch, Frame(e.port, [e.vlan] + inner, dst),
                  |lan.edges|)
         == Spread(DueElsewhere(lan.endpoints, e.switch, e.port, inner), multiset(lan.edges))
  {
    var flows := (u: Node) => bases(u) + owns(u);
    forall u | u in lan.nodes ensures Serves(lan, cookies(u), owns(u), flows(u), u) {
      CommonYields(lan, cookies(u), owns(u), bases(u), u);
    }
    LanFloods(lan, cookies, owns, flows, e, inner, dst);
  }
}
