/** Learned destinations: every switch gets one rule that sends frames for the address one hop along some
    shortest path. The switches choose their paths independently; following the rules still reaches the
    destination, in exactly the shortest distance. */
module LearnedDestinations {
  import opened Basics
  import opened Graphs
  import opened PathResources
  import opened OpenFlow
  import opened L2Multipoints

  // ----- Shortest paths -----

  ghost predicate FewestHops(E: set<Edge>, p: seq<Node>, x: Node, y: Node) {
    WalkFrom(E, p, x, y) && forall q {:trigger WalkFrom(E, q, x, y)} :: WalkFrom(E, q, x, y) ==> |p| <= |q|
  }

  /** The path search of the graph library: some path with the fewest edges, if there is any path. */
  type Router = (Node, Node) -> Option<seq<Node>>

  ghost predicate FindsHops(E: set<Edge>, router: Router) {
    forall x, y {:trigger router(x, y)} ::
      (router(x, y).Some? <==> Conn(E, x, y)) && (router(x, y).Some? ==> FewestHops(E, router(x, y).value, x, y))
  }

  /** v is the first stop on some shortest path from u. */
  ghost predicate FirstStop(E: set<Edge>, u: Node, v: Node, dst: Node) {
    exists p :: FewestHops(E, p, u, dst) && |p| > 1 && p[1] == v
  }

  lemma ShortestTail(E: set<Edge>, p: seq<Node>, u: Node, dst: Node)
    requires FewestHops(E, p, u, dst) && |p| > 1
    ensures FewestHops(E, p[1..], p[1], dst)
  {
    var t := p[1..];
    forall i | 0 <= i < |t| - 1 ensures Pair(t[i], t[i + 1]) in E { assert Pair(p[i + 1], p[i + 2]) in E; }
    forall q | WalkFrom(E, q, p[1], dst) ensures |t| <= |q| {
      Prepended(E, p, q, u, dst);
    }
  }

  /** A walk from the next stop becomes a walk from here. */
  lemma Prepended(E: set<Edge>, p: seq<Node>, q: seq<Node>, u: Node, dst: Node)
    requires IsWalk(E, p) && |p| > 1 && p[0] == u && WalkFrom(E, q, p[1], dst)
    ensures WalkFrom(E, [u] + q, u, dst)
  {
    var r := [u] + q;
    forall i | 0 <= i < |r| - 1 ensures Pair(r[i], r[i + 1]) in E {
      if i == 0 { assert Pair(p[0], p[1]) in E; } else { assert Pair(q[i - 1], q[i]) in E; }
    }
  }

  // ----- Following next hops -----

  /** The stops of a frame that is passed from next hop to next hop until it is at dst. */
  function Follow(next: Node -> Option<Node>, dst: Node, u: Node, fuel: nat): Option<seq<Node>>
    decreases fuel
  {
    if u == dst then Some([u])
    else if fuel == 0 || next(u).None? then None
    else match Follow(next, dst, next(u).value, fuel - 1)
      case None => None
      case Some(stops) => Some([u] + stops)
  }

  /** Every switch that can reach dst sends it to a switch, one stop along some shortest path. */
  ghost predicate Guides(E: set<Edge>, S: set<Node>, next: Node -> Option<Node>, dst: Node) {
    forall u {:trigger next(u)} :: u in S && u != dst && Conn(E, u, dst) ==>
      next(u).Some? && next(u).value in S && FirstStop(E, u, next(u).value, dst)
  }

  lemma SameHops(E: set<Edge>, p: seq<Node>, q: seq<Node>, u: Node, dst: Node)
    requires FewestHops(E, p, u, dst) && FewestHops(E, q, u, dst)
    ensures |p| == |q|
  {
    assert WalkFrom(E, p, u, dst) && WalkFrom(E, q, u, dst);
  }

  lemma FollowOn(next: Node -> Option<Node>, dst: Node, u: Node, fuel: nat)
    requires u != dst && fuel > 0 && next(u).Some? && Follow(next, dst, next(u).value, fuel - 1).Some?
    ensures Follow(next, dst, u, fuel) == Some([u] + Follow(next, dst, next(u).value, fuel - 1).value)
  {
  }

  lemma StayedPut(E: set<Edge>, next: Node -> Option<Node>, dst: Node, p: seq<Node>)
    requires FewestHops(E, p, dst, dst)
    ensures Follow(next, dst, dst, |p| - 1) == Some([dst]) && FewestHops(E, [dst], dst, dst)
  {
    assert WalkFrom(E, [dst], dst, dst);
  }

  /** The shortest path that the switch had in mind. */
  lemma InMind(E: set<Edge>, S: set<Node>, next: Node -> Option<Node>, dst: Node, u: Node,
               p: seq<Node>) returns (q: seq<Node>)
    requires Guides(E, S, next, dst) && u in S && u != dst && FewestHops(E, p, u, dst)
    ensures next(u).Some? && next(u).value in S && FewestHops(E, q, u, dst) && |q| > 1 && q[1] == next(u).value
    ensures |q| == |p|
  {
    assert Conn(E, u, dst);
    q :| FewestHops(E, q, u, dst) && |q| > 1 && q[1] == next(u).value;
    SameHops(E, p, q, u, dst);
  }

  /** No loop and no detour: the stops are a shortest path, whatever path each switch had in mind. */
  lemma {:induction false} FollowsShortest(E: set<Edge>, S: set<Node>, next: Node -> Option<Node>, dst: Node, u: Node,
                                           p: seq<Node>)
    requires Guides(E, S, next, dst) && u in S && FewestHops(E, p, u, dst)
    ensures Follow(next, dst, u, |p| - 1).Some? && FewestHops(E, Follow(next, dst, u, |p| - 1).value, u, dst)
    decreases |p|
  {
    if u == dst {
      StayedPut(E, next, dst, p);
    } else {
      var q := InMind(E, S, next, dst, u, p);
      ShortestTail(E, q, u, dst);
      FollowsShortest(E, S, next, dst, q[1], q[1..]);
      FollowOn(next, dst, u, |p| - 1);
      StopsShortest(E, q, Follow(next, dst, q[1], |q| - 2).value, u, dst);
    }
  }

  /** A shortest path from the next stop makes one from here. */
  lemma StopsShortest(E: set<Edge>, q: seq<Node>, stops: seq<Node>, u: Node, dst: Node)
    requires FewestHops(E, q, u, dst) && |q| > 1 && FewestHops(E, stops, q[1], dst)
    ensures FewestHops(E, [u] + stops, u, dst)
  {
    ShortestTail(E, q, u, dst);
    Prepended(E, q, stops, u, dst);
    assert |stops| <= |q[1..]|;
  }

  /** Whatever is not a switch hangs off a single edge. */
  ghost predicate OnlySwitchesJoin(E: set<Edge>, S: set<Node>) {
    forall x, y, z :: x !in S && Pair(x, y) in E && Pair(x, z) in E ==> y == z
  }

  /** So shortest paths between switches lead through switches. */
  lemma StopIsSwitch(E: set<Edge>, S: set<Node>, u: Node, v: Node, dst: Node)
    requires OnlySwitchesJoin(E, S) && dst in S && FirstStop(E, u, v, dst)
    ensures v in S
  {
    var p :| FewestHops(E, p, u, dst) && |p| > 1 && p[1] == v;
    if v != dst {
      assert Pair(p[0], p[1]) in E && Pair(p[1], p[2]) in E;
      assert Pair(p[1], p[0]) == Pair(p[0], p[1]);
      if p[2] == u {
        SubWalk(E, p, 2, |p|);
        assert false;
      }
    }
  }

  // ----- The rules -----

  datatype HopRule = HopRule(switch: Node, address: int, outPort: int)

  /** The rule leads from its switch one stop along a shortest path, or out of the destination port. */
  ghost predicate LeadsOn(w: Wiring, E: set<Edge>, u: Node, dst: Node, dstPort: int, port: int) {
    if u == dst then port == dstPort
    else exists v :: Linked(w, u, v) && FirstStop(E, u, v, dst) && port == PortTo(w, u, v)
  }

  ghost predicate RuleLeads(w: Wiring, E: set<Edge>, switches: seq<Node>, rules: seq<HopRule>, dst: Node, dstPort: int,
                            i: int) {
    && 0 <= i < |switches| && i < |rules| && rules[i].switch == switches[i]
    && LeadsOn(w, E, switches[i], dst, dstPort, rules[i].outPort)
  }

  /** One rule for each switch, in order. */
  ghost predicate RulesLead(w: Wiring, E: set<Edge>, switches: seq<Node>, rules: seq<HopRule>, dst: Node,
                            dstPort: int) {
    |rules| == |switches| && forall i {:trigger RuleLeads(w, E, switches, rules, dst, dstPort, i)} ::
      0 <= i < |switches| ==> RuleLeads(w, E, switches, rules, dst, dstPort, i)
  }

  lemma LeadsMore(w: Wiring, E: set<Edge>, switches: seq<Node>, rules: seq<HopRule>, dst: Node, dstPort: int,
                  r: HopRule)
    requires RulesLead(w, E, switches, rules, dst, dstPort) && LeadsOn(w, E, r.switch, dst, dstPort, r.outPort)
    ensures RulesLead(w, E, switches + [r.switch], rules + [r], dst, dstPort)
  {
    forall i | 0 <= i < |switches| + 1 ensures RuleLeads(w, E, switches + [r.switch], rules + [r], dst, dstPort, i) {
      if i < |switches| { assert RuleLeads(w, E, switches, rules, dst, dstPort, i); }
    }
  }

  /** The port towards the next stop of the path the search finds. */
  method NextHopPort(w: Wiring, ghost E: set<Edge>, node: Node, dst: Node, ghost dstPort: int,
                     router: Router) returns (port: Option<int>)
    requires FindsHops(E, router) && Cabled(w, E) && node in w && node != dst
    ensures port.Some? <==> Conn(E, node, dst)
    ensures port.Some? ==> LeadsOn(w, E, node, dst, dstPort, port.value)
  {
    var path := router(node, dst);
    if path == None {
      return None;
    }
    var next := path.value[1];
    assert Pair(path.value[0], path.value[1]) in E && FirstStop(E, node, next, dst);
    port := Some(PortTo(w, node, next));
  }

  class LearnedDestinationPolicy {
    const dstSwitch: Node
    const dstPort: int
    const dstAddress: int
    var breakdown: seq<HopRule>

    constructor (dstSwitch: Node, dstPort: int, dstAddress: int)
      ensures this.dstSwitch == dstSwitch && this.dstPort == dstPort && this.dstAddress == dstAddress
    {
      this.dstSwitch, this.dstPort, this.dstAddress := dstSwitch, dstPort, dstAddress;
      breakdown := [];
    }

    /** One rule per switch. It fails exactly if some switch cannot reach the destination. */
    method BreakdownRule(w: Wiring, ghost E: set<Edge>, switches: seq<Node>, router: Router) returns (ok: bool)
      requires FindsHops(E, router) && Cabled(w, E) && forall u :: u in switches ==> u in w
      modifies this
      ensures ok <==> forall u :: u in switches ==> Conn(E, u, dstSwitch)
      ensures ok ==> RulesLead(w, E, switches, breakdown, dstSwitch, dstPort)
      ensures ok ==> forall r :: r in breakdown ==> r.address == dstAddress
    {
      breakdown := [];
      for i := 0 to |switches|
        invariant forall k :: 0 <= k < i ==> Conn(E, switches[k], dstSwitch)
        invariant RulesLead(w, E, switches[..i], breakdown, dstSwitch, dstPort)
        invariant forall r :: r in breakdown ==> r.address == dstAddress
      {
        var node := switches[i];
        assert switches[..i + 1] == switches[..i] + [node];
        if node == dstSwitch {
          ConnRefl(E, node);
          LeadsMore(w, E, switches[..i], breakdown, dstSwitch, dstPort, HopRule(node, dstAddress, dstPort));
          breakdown := breakdown + [HopRule(node, dstAddress, dstPort)];
          continue;
        }
        var port := NextHopPort(w, E, node, dstSwitch, dstPort, router);
        if port == None {
          assert node in switches;
          return false;
        }
        LeadsMore(w, E, switches[..i], breakdown, dstSwitch, dstPort, HopRule(node, dstAddress, port.value));
        breakdown := breakdown + [HopRule(node, dstAddress, port.value)];
      }
      assert switches[..|switches|] == switches;
      ok := true;
    }
  }

  /** Where the rules send a frame from u. */
  function NextStop(w: Wiring, rules: seq<HopRule>): Node -> Option<Node> {
    u => if rules == [] then None else
      var i := RuleAt(rules, u);
      if i < |rules| && u in w && Across(w, u, rules[i].outPort).Some?
      then Some(Across(w, u, rules[i].outPort).value.0) else None
  }

  function RuleAt(rules: seq<HopRule>, u: Node): nat {
    if rules == [] || rules[0].switch == u then 0 else 1 + RuleAt(rules[1..], u)
  }

  lemma {:induction false} RuleAtFinds(rules: seq<HopRule>, u: Node)
    ensures RuleAt(rules, u) <= |rules|
    ensures RuleAt(rules, u) < |rules| ==> rules[RuleAt(rules, u)].switch == u
    ensures (exists i :: 0 <= i < |rules| && rules[i].switch == u) ==> RuleAt(rules, u) < |rules|
  {
    if rules != [] && rules[0].switch != u {
      RuleAtFinds(rules[1..], u);
      if i :| 0 <= i < |rules| && rules[i].switch == u { assert rules[1..][i - 1].switch == u; }
    }
  }

  /** The rules of all switches guide a frame. */
  lemma RulesGuide(w: Wiring, E: set<Edge>, switches: seq<Node>, rules: seq<HopRule>, dst: Node, dstPort: int)
    requires WiringOk(w) && Cabled(w, E) && OnlySwitchesJoin(E, ToSet(switches)) && dst in switches
    requires RulesLead(w, E, switches, rules, dst, dstPort) && forall u :: u in switches ==> u in w
    ensures Guides(E, ToSet(switches), NextStop(w, rules), dst)
  {
    forall u | u in ToSet(switches) && u != dst
      ensures NextStop(w, rules)(u).Some? && NextStop(w, rules)(u).value in ToSet(switches)
           && FirstStop(E, u, NextStop(w, rules)(u).value, dst)
    {
      var k :| 0 <= k < |switches| && switches[k] == u;
      assert RuleLeads(w, E, switches, rules, dst, dstPort, k);
      RuleAtFinds(rules, u);
      var i := RuleAt(rules, u);
      assert RuleLeads(w, E, switches, rules, dst, dstPort, i);
      var v :| Linked(w, u, v) && FirstStop(E, u, v, dst) && rules[i].outPort == PortTo(w, u, v);
      StopIsSwitch(E, ToSet(switches), u, v, dst);
      PortAndNeighbor(w, u, v);
      LinkedBack(w, u, v);
    }
  }

  /** From any switch, following the installed rules reaches the destination in exactly the shortest
      distance. */
  lemma LearnedRoute(w: Wiring, E: set<Edge>, switches: seq<Node>, rules: seq<HopRule>, dst: Node, dstPort: int,
                     u: Node, p: seq<Node>)
    requires WiringOk(w) && Cabled(w, E) && OnlySwitchesJoin(E, ToSet(switches)) && dst in switches
    requires RulesLead(w, E, switches, rules, dst, dstPort) && forall u :: u in switches ==> u in w
    requires u in switches && FewestHops(E, p, u, dst)
    ensures Follow(NextStop(w, rules), dst, u, |p| - 1).Some?
    ensures FewestHops(E, Follow(NextStop(w, rules), dst, u, |p| - 1).value, u, dst)
  {
    RulesGuide(w, E, switches, rules, dst, dstPort);
    FollowsShortest(E, ToSet(switches), NextStop(w, rules), dst, u, p);
  }

  // ----- The same on the tree of a multipoint LAN -----

  datatype LearnedRule = LearnedRule(hop: HopRule, vlanIn: int, vlanOut: int)

  function HopRules(rules: seq<LearnedRule>): (r: seq<HopRule>)
    ensures |r| == |rules| && forall i :: 0 <= i < |r| ==> r[i] == rules[i].hop
  {
    seq(|rules|, i requires 0 <= i < |rules| => rules[i].hop)
  }

  /** Frames stay on the intermediate VLAN until the destination switch puts them on the VLAN of the first
      endpoint listed there. */
  predicate VlansFor(endpoints: seq<Endpoint>, iv: int, dst: Node, rule: LearnedRule) {
    && rule.vlanIn == iv
    && if rule.hop.switch == dst then
         OnSwitch(endpoints, dst) && rule.vlanOut == endpoints[FirstAt(endpoints, dst)].vlan
       else
         rule.vlanOut == iv
  }

  method OutboundVlan(endpoints: seq<Endpoint>, dst: Node) returns (vlan: Option<int>)
    ensures vlan.Some? <==> OnSwitch(endpoints, dst)
    ensures vlan.Some? ==> vlan.value == endpoints[FirstAt(endpoints, dst)].vlan
  {
    for i := 0 to |endpoints|
      invariant forall k :: 0 <= k < i ==> endpoints[k].switch != dst
    {
      if endpoints[i].switch == dst {
        assert OnSwitch(endpoints, dst) && FirstAt(endpoints, dst) == i;
        return Some(endpoints[i].vlan);
      }
    }
    vlan := None;
  }

  /** A switch can be given a rule. */
  ghost predicate CanServe(E: set<Edge>, endpoints: seq<Endpoint>, u: Node, dst: Node) {
    if u == dst then OnSwitch(endpoints, dst) else Conn(E, u, dst)
  }

  /** The rule for one switch of the tree. */
  method LearnedRuleAt(w: Wiring, ghost E: set<Edge>, node: Node, endpoints: seq<Endpoint>, iv: int, dst: Node,
                       dstPort: int,
                       address: int, router: Router) returns (rule: Option<LearnedRule>)
    requires FindsHops(E, router) && Cabled(w, E) && node in w
    ensures rule.Some? <==> CanServe(E, endpoints, node, dst)
    ensures rule.Some? ==>
            rule.value.hop.switch == node && rule.value.hop.address == address
            && VlansFor(endpoints, iv, dst, rule.value)
    ensures rule.Some? ==> LeadsOn(w, E, node, dst, dstPort, rule.value.hop.outPort)
  {
    if node == dst {
      var vlan := OutboundVlan(endpoints, dst);
      if vlan == None {
        return None;
      }
      return Some(LearnedRule(HopRule(node, address, dstPort), iv, vlan.value));
    }
    var port := NextHopPort(w, E, node, dst, dstPort, router);
    if port == None {
      return None;
    }
    rule := Some(LearnedRule(HopRule(node, address, port.value), iv, iv));
  }

  lemma HopRulesMore(rules: seq<LearnedRule>, rule: LearnedRule)
    ensures HopRules(rules + [rule]) == HopRules(rules) + [rule.hop]
  {
  }

  /** The rules for these switches, with the VLANs they change to. */
  ghost predicate Served(w: Wiring, E: set<Edge>, endpoints: seq<Endpoint>, iv: int, dst: Node, dstPort: int,
                         address: int, us: seq<Node>, rules: seq<LearnedRule>) {
    && RulesLead(w, E, us, HopRules(rules), dst, dstPort)
    && forall r :: r in rules ==> r.hop.address == address && VlansFor(endpoints, iv, dst, r)
  }

  lemma ServedMore(w: Wiring, E: set<Edge>, endpoints: seq<Endpoint>, iv: int, dst: Node, dstPort: int, address: int,
                   us: seq<Node>, rules: seq<LearnedRule>, rule: LearnedRule)
    requires Served(w, E, endpoints, iv, dst, dstPort, address, us, rules)
    requires rule.hop.address == address && VlansFor(endpoints, iv, dst, rule)
    requires LeadsOn(w, E, rule.hop.switch, dst, dstPort, rule.hop.outPort)
    ensures Served(w, E, endpoints, iv, dst, dstPort, address, us + [rule.hop.switch], rules + [rule])
  {
    LeadsMore(w, E, us, HopRules(rules), dst, dstPort, rule.hop);
    HopRulesMore(rules, rule);
  }

  ghost predicate AllCanServe(E: set<Edge>, endpoints: seq<Endpoint>, us: seq<Node>, dst: Node) {
    forall u {:trigger CanServe(E, endpoints, u, dst)} :: u in us ==> CanServe(E, endpoints, u, dst)
  }

  /** A new address behind a port of one of the tree's switches: one rule per switch of the tree. It fails
      exactly if that switch is not on the tree or has no endpoint. */
  method SwitchChange(w: Wiring, ghost E: set<Edge>, treeNodes: seq<Node>, endpoints: seq<Endpoint>, iv: int,
                      dst: Node, dstPort: int, address: int, router: Router) returns (ok: bool, rules: seq<LearnedRule>)
    requires IsTree(ToSet(treeNodes), E) && Cabled(w, E) && FindsHops(E, router)
             && forall u :: u in treeNodes ==> u in w
    ensures ok <==> dst in treeNodes && OnSwitch(endpoints, dst)
    ensures ok ==> RulesLead(w, E, treeNodes, HopRules(rules), dst, dstPort)
    ensures ok ==> forall r :: r in rules ==> r.hop.address == address && VlansFor(endpoints, iv, dst, r)
  {
    rules := [];
    for i := 0 to |treeNodes|
      invariant Served(w, E, endpoints, iv, dst, dstPort, address, treeNodes[..i], rules)
      invariant AllCanServe(E, endpoints, treeNodes[..i], dst)
    {
      var node := treeNodes[i];
      assert treeNodes[..i + 1] == treeNodes[..i] + [node];
      var rule := LearnedRuleAt(w, E, node, endpoints, iv, dst, dstPort, address, router);
      if rule == None {
        if node != dst { OffTheTree(E, treeNodes, node, dst); }
        return false, [];
      }
      ServedMore(w, E, endpoints, iv, dst, dstPort, address, treeNodes[..i], rules, rule.value);
      rules := rules + [rule.value];
    }
    assert treeNodes[..|treeNodes|] == treeNodes;
    OnTheTree(E, treeNodes, endpoints, dst);
    ok := true;
  }

  lemma OffTheTree(E: set<Edge>, treeNodes: seq<Node>, node: Node, dst: Node)
    requires IsTree(ToSet(treeNodes), E) && node in treeNodes && !Conn(E, node, dst)
    ensures dst !in treeNodes
  {
    assert node in ToSet(treeNodes);
  }

  /** What every node of the tree is connected to is on the tree. */
  lemma OnTheTree(E: set<Edge>, treeNodes: seq<Node>, endpoints: seq<Endpoint>, dst: Node)
    requires IsTree(ToSet(treeNodes), E) && AllCanServe(E, endpoints, treeNodes, dst)
    ensures dst in treeNodes && OnSwitch(endpoints, dst)
  {
    var S := ToSet(treeNodes);
    var x :| x in S;
    assert CanServe(E, endpoints, x, dst);
    if x != dst {
      forall u, v | u in S && Pair(u, v) in E ensures v in S { WithinEnds(S, E, u, v); }
      ConnClosed(E, S, x, dst);
      assert CanServe(E, endpoints, dst, dst);
    }
  }

  /** Along the tree too, the rules lead from every switch to the destination without a detour. */
  lemma TreeRoute(w: Wiring, E: set<Edge>, treeNodes: seq<Node>, rules: seq<LearnedRule>, dst: Node, dstPort: int,
                  u: Node, p: seq<Node>)
    requires WiringOk(w) && Cabled(w, E) && IsTree(ToSet(treeNodes), E) && dst in treeNodes
             && forall x :: x in treeNodes ==> x in w
    requires RulesLead(w, E, treeNodes, HopRules(rules), dst, dstPort) && u in treeNodes && FewestHops(E, p, u, dst)
    ensures Follow(NextStop(w, HopRules(rules)), dst, u, |p| - 1).Some?
    ensures FewestHops(E, Follow(NextStop(w, HopRules(rules)), dst, u, |p| - 1).value, u, dst)
  {
    forall x, y | x !in ToSet(treeNodes) && Pair(x, y) in E ensures false { WithinEnds(ToSet(treeNodes), E, x, y); }
    LearnedRoute(w, E, treeNodes, HopRules(rules), dst, dstPort, u, p);
  }

  /** What the rules make of a frame on some VLAN: from switch to switch on the VLAN each rule puts it on, then out of
      the destination; nothing if a rule does not hear that VLAN. */
  function Carried(w: Wiring, rules: seq<LearnedRule>, dst: Node, u: Node, vlan: int, fuel: nat): Option<(int, int)>
    decreases fuel
  {
    var i := RuleAt(HopRules(rules), u);
    if i >= |rules| || rules[i].vlanIn != vlan then None
    else if u == dst then Some((rules[i].hop.outPort, rules[i].vlanOut))
    else if fuel == 0 || NextStop(w, HopRules(rules))(u).None? then None
    else Carried(w, rules, dst, NextStop(w, HopRules(rules))(u).value, rules[i].vlanOut, fuel - 1)
  }

  /** The switch has its rule, with the VLANs the rule is to hear and to change to. */
  ghost predicate Equipped(rules: seq<LearnedRule>, endpoints: seq<Endpoint>, iv: int, dst: Node, dstPort: int,
                           u: Node) {
    var i := RuleAt(HopRules(rules), u);
    && i < |rules| && rules[i].hop.switch == u && VlansFor(endpoints, iv, dst, rules[i])
    && (u == dst ==> rules[i].hop.outPort == dstPort)
  }

  lemma RuleOf(w: Wiring, E: set<Edge>, us: seq<Node>, endpoints: seq<Endpoint>, iv: int, dst: Node, dstPort: int,
               address: int, rules: seq<LearnedRule>, u: Node)
    requires Served(w, E, endpoints, iv, dst, dstPort, address, us, rules) && u in us
    ensures Equipped(rules, endpoints, iv, dst, dstPort, u)
  {
    var k :| 0 <= k < |us| && us[k] == u;
    assert RuleLeads(w, E, us, HopRules(rules), dst, dstPort, k);
    RuleAtFinds(HopRules(rules), u);
    var i := RuleAt(HopRules(rules), u);
    assert RuleLeads(w, E, us, HopRules(rules), dst, dstPort, i) && rules[i] in rules;
  }

  lemma CarriedOn(w: Wiring, rules: seq<LearnedRule>, endpoints: seq<Endpoint>, iv: int, dst: Node, dstPort: int,
                  u: Node, v: Node, fuel: nat)
    requires u != dst && fuel > 0 && NextStop(w, HopRules(rules))(u) == Some(v)
    requires Equipped(rules, endpoints, iv, dst, dstPort, u)
    ensures Carried(w, rules, dst, u, iv, fuel) == Carried(w, rules, dst, v, iv, fuel - 1)
  {
  }

  lemma CarriedOut(w: Wiring, rules: seq<LearnedRule>, endpoints: seq<Endpoint>, iv: int, dst: Node, dstPort: int,
                   fuel: nat)
    requires OnSwitch(endpoints, dst) && Equipped(rules, endpoints, iv, dst, dstPort, dst)
    ensures Carried(w, rules, dst, dst, iv, fuel) == Some((dstPort, endpoints[FirstAt(endpoints, dst)].vlan))
  {
  }

  /** Where the rules guide a frame to the destination, they carry it on the intermediate VLAN. */
  lemma {:induction false} CarriedAlong(w: Wiring, E: set<Edge>, S: set<Node>, endpoints: seq<Endpoint>, iv: int,
                                        rules: seq<LearnedRule>, dst: Node, dstPort: int, u: Node, p: seq<Node>)
    requires Guides(E, S, NextStop(w, HopRules(rules)), dst) && OnSwitch(endpoints, dst)
    requires forall v {:trigger Equipped(rules, endpoints, iv, dst, dstPort, v)} :: v in S ==>
               Equipped(rules, endpoints, iv, dst, dstPort, v)
    requires u in S && FewestHops(E, p, u, dst)
    ensures Carried(w, rules, dst, u, iv, |p| - 1) == Some((dstPort, endpoints[FirstAt(endpoints, dst)].vlan))
    decreases |p|
  {
    assert Equipped(rules, endpoints, iv, dst, dstPort, u);
    if u == dst {
      CarriedOut(w, rules, endpoints, iv, dst, dstPort, |p| - 1);
    } else {
      var q := InMind(E, S, NextStop(w, HopRules(rules)), dst, u, p);
      ShortestTail(E, q, u, dst);
      CarriedOn(w, rules, endpoints, iv, dst, dstPort, u, q[1], |p| - 1);
      CarriedAlong(w, E, S, endpoints, iv, rules, dst, dstPort, q[1], q[1..]);
    }
  }

  /** A frame for the address that is on the LAN's intermediate VLAN anywhere on the tree leaves the destination switch
      by the learned port, on the VLAN of the first endpoint listed there. */
  lemma TreeCarries(w: Wiring, E: set<Edge>, treeNodes: seq<Node>, endpoints: seq<Endpoint>, iv: int,
                    rules: seq<LearnedRule>, dst: Node, dstPort: int, address: int, u: Node, p: seq<Node>)
    requires WiringOk(w) && Cabled(w, E) && IsTree(ToSet(treeNodes), E) && dst in treeNodes
             && forall x :: x in treeNodes ==> x in w
    requires Served(w, E, endpoints, iv, dst, dstPort, address, treeNodes, rules) && OnSwitch(endpoints, dst)
    requires u in treeNodes && FewestHops(E, p, u, dst)
    ensures Carried(w, rules, dst, u, iv, |p| - 1) == Some((dstPort, endpoints[FirstAt(endpoints, dst)].vlan))
  {
    TreeGuides(w, E, treeNodes, HopRules(rules), dst, dstPort);
    forall v | v in ToSet(treeNodes) ensures Equipped(rules, endpoints, iv, dst, dstPort, v) {
      RuleOf(w, E, treeNodes, endpoints, iv, dst, dstPort, address, rules, v);
    }
    CarriedAlong(w, E, ToSet(treeNodes), endpoints, iv, rules, dst, dstPort, u, p);
  }

  lemma TreeGuides(w: Wiring, E: set<Edge>, treeNodes: seq<Node>, rules: seq<HopRule>, dst: Node, dstPort: int)
    requires WiringOk(w) && Cabled(w, E) && IsTree(ToSet(treeNodes), E) && dst in treeNodes
             && forall x :: x in treeNodes ==> x in w
    requires RulesLead(w, E, treeNodes, rules, dst, dstPort)
    ensures Guides(E, ToSet(treeNodes), NextStop(w, rules), dst)
  {
    forall x, y | x !in ToSet(treeNodes) && Pair(x, y) in E ensures false { WithinEnds(ToSet(treeNodes), E, x, y); }
    RulesGuide(w, E, treeNodes, rules, dst, dstPort);
  }
}
