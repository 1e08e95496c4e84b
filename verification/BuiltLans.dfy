/** What the breakdown of a multipoint LAN builds is a LAN of the kind whose flooding is studied: the hypotheses about
    its tree and its switches are met by the breakdown, also after the search has deleted edges. */
module BuiltLans {
  import opened Basics
  import opened Graphs
  import opened PathResources
  import opened SteinerTree
  import opened TopologyManagers
  import opened OpenFlow
  import opened RyuTranslate
  import opened L2Multipoints
  import opened MultipointFlows
  import opened Flooding
  import opened Coexistence

  // ----- What deleting edges leaves of the wiring -----

  predicate DistinctCables(cables: seq<Cable>) {
    forall i, j :: 0 <= i < j < |cables| ==>
      cables[i].port != cables[j].port && cables[i].neighbor != cables[j].neighbor
  }

  lemma {:induction false} PluggedHas(u: Node, cables: seq<Cable>, gone: set<Edge>, c: Cable)
    ensures c in Plugged(u, cables, gone) <==> c in cables && Pair(u, c.neighbor) !in gone
  {
    if cables != [] {
      PluggedHas(u, cables[1..], gone, c);
      assert cables == [cables[0]] + cables[1..];
    }
  }

  lemma {:induction false} PluggedDistinct(u: Node, cables: seq<Cable>, gone: set<Edge>)
    requires DistinctCables(cables)
    ensures DistinctCables(Plugged(u, cables, gone))
  {
    if cables != [] {
      var rest := cables[1..];
      var kept := Plugged(u, rest, gone);
      PluggedDistinct(u, rest, gone);
      forall i | 0 <= i < |kept| ensures kept[i].port != cables[0].port && kept[i].neighbor != cables[0].neighbor {
        PluggedHas(u, rest, gone, kept[i]);
        var k :| 0 <= k < |rest| && rest[k] == kept[i];
        assert cables[k + 1] == kept[i];
      }
    }
  }

  lemma PluggedLink(w: Wiring, gone: set<Edge>, u: Node, v: Node)
    ensures Linked(Unplugged(w, gone), u, v) <==> Linked(w, u, v) && Pair(u, v) !in gone
  {
    if u in w {
      FirstToFinds(w[u], v);
      FirstToFinds(Plugged(u, w[u], gone), v);
      if Linked(w, u, v) && Pair(u, v) !in gone {
        PluggedHas(u, w[u], gone, Cable(v, FirstTo(w[u], v).value));
      }
      if Linked(Unplugged(w, gone), u, v) {
        PluggedHas(u, w[u], gone, Cable(v, FirstTo(Plugged(u, w[u], gone), v).value));
      }
    }
  }

  /** The cables that are left are still in order. */
  lemma UnpluggedOk(w: Wiring, gone: set<Edge>)
    requires WiringOk(w)
    ensures WiringOk(Unplugged(w, gone))
  {
    var w' := Unplugged(w, gone);
    forall u | u in w' ensures CablesOk(w', u) {
      assert CablesOk(w, u);
      PluggedDistinct(u, w[u], gone);
      forall i | 0 <= i < |w'[u]|
        ensures w'[u][i].neighbor != u && (w'[u][i].neighbor in w' ==> Linked(w', w'[u][i].neighbor, u))
      {
        var v := w'[u][i].neighbor;
        PluggedHas(u, w[u], gone, w'[u][i]);
        PluggedLink(w, gone, v, u);
        assert Pair(v, u) == Pair(u, v);
      }
    }
  }

  /** A port that led out of the network still does, or leads nowhere. */
  lemma StillEdge(w: Wiring, gone: set<Edge>, u: Node, p: int)
    requires WiringOk(w) && u in w && Across(w, u, p) == None
    ensures Across(Unplugged(w, gone), u, p) == None
  {
    assert CablesOk(w, u);
    FirstPlugged(u, w[u], gone, p);
    if PortNeighbor(w, u, p).Some? { PluggedLink(w, gone, PortNeighbor(w, u, p).value, u); }
  }

  lemma PortsStay(w: Wiring, gone: set<Edge>, u: Node, i: nat)
    requires u in w && i < |Plugged(u, w[u], gone)|
    ensures exists k :: 0 <= k < |w[u]| && w[u][k] == Plugged(u, w[u], gone)[i]
  {
    PluggedHas(u, w[u], gone, Plugged(u, w[u], gone)[i]);
  }

  // ----- From the breakdown to the LAN -----

  /** No port of a switch has the reserved number of the controller, and endpoints are on ports that do not lead to a
      switch. */
  ghost predicate AtEdge(w: Wiring, endpoints: seq<Endpoint>) {
    && (forall u, i :: u in w && 0 <= i < |w[u]| ==> w[u][i].port != OFPP_CONTROLLER)
    && forall e {:trigger e in endpoints} :: e in endpoints ==>
         (e.switch in w ==> Across(w, e.switch, e.port) == None) && e.port != OFPP_CONTROLLER
  }

  lemma BuiltIsLan(w0: Wiring, nodes: Nodes, edges0: Links, edges: Links, endpoints: seq<Endpoint>, bw: int, iv: int,
                   N: set<Node>, E: set<Edge>, treeNodes: seq<Node>, treeEdges: seq<Hop>)
    requires WiringOk(w0) && AtEdge(w0, endpoints) && endpoints != []
    requires TreeFound(nodes, edges, Switches(Firsts(endpoints)), bw, N, E)
    requires N <= w0.Keys && Lists(N, E, treeNodes, treeEdges)
    requires Wired(Unplugged(w0, edges0.Keys - edges.Keys), treeEdges)
    ensures LanOk(Lan(Unplugged(w0, edges0.Keys - edges.Keys), N, E, treeEdges, endpoints, iv, bw))
  {
    var gone := edges0.Keys - edges.Keys;
    var w := Unplugged(w0, gone);
    var lan := Lan(w, N, E, treeEdges, endpoints, iv, bw);
    UnpluggedOk(w0, gone);
    FirstsCover(endpoints);
    assert endpoints[0].switch in Switches(Firsts(endpoints)) by { assert OnSwitch(endpoints, endpoints[0].switch); }
    forall i | 0 <= i < |endpoints| ensures EdgePort(lan, endpoints[i]) {
      var e := endpoints[i];
      assert e in endpoints && OnSwitch(endpoints, e.switch);
      assert e.switch in ToSet(Switches(Firsts(endpoints)));
      StillEdge(w0, gone, e.switch, e.port);
    }
    forall u, i | u in w && 0 <= i < |w[u]| ensures w[u][i].port != OFPP_CONTROLLER {
      PortsStay(w0, gone, u, i);
    }
  }

  predicate ForSwitch(rules: seq<MultipointRule>, u: Node, i: int) {
    0 <= i < |rules| && rules[i].switch == u
  }

  /** Every switch runs the translation of its rule, and a switch without one runs nothing for this LAN. */
  ghost predicate Carried(rules: seq<MultipointRule>, cookies: Node -> int, owns: Node -> seq<Flow>) {
    forall u {:trigger owns(u)} ::
      && (forall i {:trigger ForSwitch(rules, u, i)} :: ForSwitch(rules, u, i) ==>
            Translated(rules[i], cookies(u), owns(u)))
      && ((forall i {:trigger ForSwitch(rules, u, i)} :: !ForSwitch(rules, u, i)) ==> owns(u) == [])
  }

  /** The rules of the breakdown, once they are translated, make the LAN one in force. */
  lemma CarriedIsLaid(lan: Lan, treeNodes: seq<Node>, rules: seq<MultipointRule>, cookies: Node -> int,
                      owns: Node -> seq<Flow>)
    requires LanOk(lan) && Distinct(treeNodes) && ToSet(treeNodes) == lan.nodes && Carried(rules, cookies, owns)
    requires RulesFor(lan.w, lan.endpoints, lan.hops, lan.iv, lan.bandwidth,
                      Switches(Firsts(lan.endpoints)) + Interior(lan.endpoints, treeNodes), rules)
    ensures LaidLanOk(lan.w, LaidLan(lan, treeNodes, cookies, owns))
  {
    forall i | 0 <= i < |lan.endpoints| ensures lan.endpoints[i].switch in lan.nodes { EndpointEdge(lan, i); }
    RulesCoverTree(lan, treeNodes, rules);
    forall u ensures if u in lan.nodes then Translated(Rule(lan, u), cookies(u), owns(u)) else owns(u) == [] {
      if u in lan.nodes {
        var i :| 0 <= i < |rules| && rules[i].switch == u;
        assert ForSwitch(rules, u, i);
      } else {
        assert forall i :: !ForSwitch(rules, u, i);
      }
    }
  }

  /** Whenever the breakdown succeeds on a wiring in order, with endpoints at the edge of the network, it has built such
      a LAN, and the translations of its rules make that a LAN in force that holds the policy's resources. */
  method LayLan(policy: L2MultipointPolicy, tm: TopologyManager, dijkstra: PathFinder)
    returns (r: Verdict, tree: Graph, ghost lan: Lan)
    requires FindsShortest(dijkstra) && Within(tm.nodes.Keys, tm.edges.Keys) && Cabled(tm.wiring, tm.edges.Keys)
    requires WiringOk(tm.wiring) && AtEdge(tm.wiring, policy.endpoints) && policy.endpoints != []
    modifies policy, tm`edges, tm`wiring
    ensures r == Built ==> policy.intermediateVlan.Some? && lan == Lan(tm.wiring, tree.nodes, tree.edges,
              policy.treeEdges, policy.endpoints, policy.intermediateVlan.value, policy.bandwidth)
    ensures r == Built ==> LanOk(lan)
    ensures r == Built ==>
      forall cookies, owns {:trigger Carried(policy.breakdown, cookies, owns)} ::
        Carried(policy.breakdown, cookies, owns) ==>
          && LaidLanOk(tm.wiring, LaidLan(lan, policy.treeNodes, cookies, owns))
          && LanResources(LaidLan(lan, policy.treeNodes, cookies, owns)) == policy.resources
  {
    ghost var w0, edges0 := tm.wiring, tm.edges;
    r, tree := policy.BreakdownRule(tm, dijkstra);
    var iv := if r == Built then policy.intermediateVlan.value else 0;
    lan := Lan(tm.wiring, tree.nodes, tree.edges, policy.treeEdges, policy.endpoints, iv, policy.bandwidth);
    if r == Built {
      BuiltIsLan(w0, tm.nodes, edges0, tm.edges, policy.endpoints, policy.bandwidth, iv, tree.nodes, tree.edges,
                 policy.treeNodes, policy.treeEdges);
      forall cookies, owns | Carried(policy.breakdown, cookies, owns)
        ensures LaidLanOk(tm.wiring, LaidLan(lan, policy.treeNodes, cookies, owns))
      {
        CarriedIsLaid(lan, policy.treeNodes, policy.breakdown, cookies, owns);
      }
    }
  }
}
