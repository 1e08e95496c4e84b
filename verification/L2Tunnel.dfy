/** Layer-2 tunnels: the resources and per-switch rules a tunnel is broken down into, why the rules of
    different tunnels never interfere, and why a frame put in at one end comes out at the other. */
module L2Tunnels {
  import opened Basics
  import opened Graphs
  import opened PathResources
  import opened TopologyManagers
  import opened OpenFlow
  import opened RyuTranslate

  datatype Tunnel = Tunnel(srcSwitch: Node, srcPort: int, srcVlan: int, dstSwitch: Node, dstPort: int, dstVlan: int,
                           bandwidth: int)

  datatype SwitchRule = SwitchRule(switch: Node, rule: VlanRule)

  predicate HopOk(w: Wiring, path: seq<Node>, i: int) {
    0 <= i < |path| - 1 && Linked(w, path[i], path[i + 1]) && Linked(w, path[i + 1], path[i])
  }

  /** A way for the tunnel through the switches. */
  ghost predicate PathOk(w: Wiring, t: Tunnel, path: seq<Node>) {
    && |path| > 0 && path[0] == t.srcSwitch && path[|path| - 1] == t.dstSwitch && Distinct(path)
    && (forall n :: n in path ==> n in w)
    && forall i {:trigger HopOk(w, path, i)} :: 0 <= i < |path| - 1 ==> HopOk(w, path, i)
  }

  /** A way through the topology as the path search finds it: cabled wherever it passes a switch. */
  ghost predicate CandidateOk(w: Wiring, t: Tunnel, path: seq<Node>) {
    && |path| > 0 && path[0] == t.srcSwitch && path[|path| - 1] == t.dstSwitch && Distinct(path)
    && forall i {:trigger Cabling(w, path, i)} :: 0 <= i < |path| - 1 ==> Cabling(w, path, i)
  }

  predicate Cabling(w: Wiring, path: seq<Node>, i: int) {
    && 0 <= i < |path| - 1
    && (path[i] in w ==> Linked(w, path[i], path[i + 1])) && (path[i + 1] in w ==> Linked(w, path[i + 1], path[i]))
  }

  /** So is every simple path of a topology whose edges are read from the switches' lists of cables. */
  lemma WalkIsCandidate(w: Wiring, E: set<Edge>, t: Tunnel, path: seq<Node>)
    requires WalkFrom(E, path, t.srcSwitch, t.dstSwitch) && Distinct(path)
    requires forall u, v {:trigger Pair(u, v)} :: Pair(u, v) in E && u in w ==> Linked(w, u, v)
    ensures CandidateOk(w, t, path)
  {
    forall i | 0 <= i < |path| - 1 ensures Cabling(w, path, i) {
      assert Pair(path[i], path[i + 1]) in E && Pair(path[i + 1], path[i]) == Pair(path[i], path[i + 1]);
    }
  }

  /** If it passes switches only, it is a way for the tunnel. */
  lemma CandidatePath(w: Wiring, t: Tunnel, path: seq<Node>)
    requires CandidateOk(w, t, path)
    ensures PathOk(w, t, path) <==> forall n :: n in path ==> n in w
  {
    if forall n :: n in path ==> n in w {
      forall i | 0 <= i < |path| - 1 ensures HopOk(w, path, i) {
        assert Cabling(w, path, i);
      }
    }
  }

  function TunnelResources(t: Tunnel, path: seq<Node>, iv: int): seq<Resource> {
    [VlanPath(path, iv), VlanPort(t.srcSwitch, t.srcPort, t.srcVlan), VlanPort(t.dstSwitch, t.dstPort, t.dstVlan),
     BandwidthPath(path, t.bandwidth), BandwidthPort(t.srcSwitch, t.srcPort, t.bandwidth),
     BandwidthPort(t.dstSwitch, t.dstPort, t.bandwidth)]
  }

  /** What the rule manager demands of the resources it is handed. */
  lemma TunnelFormed(w: Wiring, t: Tunnel, path: seq<Node>, iv: int)
    requires PathOk(w, t, path) && t.bandwidth >= 0
    ensures forall r :: r in TunnelResources(t, path, iv) ==> WellFormed(w, r)
  {
    SimpleHops(path);
    forall r | r in TunnelResources(t, path, iv) ensures WellFormed(w, r) {
      if r.OnPort() { PortFormed(w, r); }
    }
  }

  // ----- Breaking a tunnel down -----

  function EndRule(w: Wiring, switch: Node, next: Node, inPort: int, inVlan: int, iv: int, bw: int): SwitchRule
    requires Linked(w, switch, next)
  {
    SwitchRule(switch, VlanRule(inPort, PortTo(w, switch, next), inVlan, iv, true, Some(bw)))
  }

  function MidRule(w: Wiring, path: seq<Node>, i: nat, iv: int, bw: int): SwitchRule
    requires 0 < i < |path| - 1 && Linked(w, path[i], path[i - 1]) && Linked(w, path[i], path[i + 1])
  {
    SwitchRule(path[i],
               VlanRule(PortTo(w, path[i], path[i - 1]), PortTo(w, path[i], path[i + 1]), iv, iv, true, Some(bw)))
  }

  ghost function RulesOf(w: Wiring, t: Tunnel, path: seq<Node>, iv: int): seq<SwitchRule>
    requires PathOk(w, t, path)
  {
    var n := |path|;
    if n == 1 then
      [SwitchRule(t.srcSwitch, VlanRule(t.srcPort, t.dstPort, t.srcVlan, t.dstVlan, true, Some(t.bandwidth)))]
    else
      assert HopOk(w, path, 0) && HopOk(w, path, n - 2);
      [EndRule(w, path[0], path[1], t.srcPort, t.srcVlan, iv, t.bandwidth),
       EndRule(w, path[n - 1], path[n - 2], t.dstPort, t.dstVlan, iv, t.bandwidth)] +
      seq(n - 2, i requires 0 <= i < n - 2 =>
        assert HopOk(w, path, i) && HopOk(w, path, i + 1);
        MidRule(w, path, i + 1, iv, t.bandwidth))
  }

  /** Laid out; no shortest path is usable; or a node on the path is not a switch. */
  datatype Layout = LaidOut | NoPath | OffSwitches

  /** What is behind the tunnel's two ports. */
  function EndsOf(w: Wiring, t: Tunnel): seq<(Node, Option<Node>, int)>
    requires t.srcSwitch in w && t.dstSwitch in w
  {
    [(t.srcSwitch, PortNeighbor(w, t.srcSwitch, t.srcPort), t.srcVlan),
     (t.dstSwitch, PortNeighbor(w, t.dstSwitch, t.dstPort), t.dstVlan)]
  }

  /** Each end that leads somewhere names the edge and the VLAN that the tunnel reserves there. */
  lemma EndsReserved(w: Wiring, t: Tunnel, path: seq<Node>, iv: int, k: nat, e: Edge, vlan: int)
    requires PathOk(w, t, path) && t.srcSwitch in w && t.dstSwitch in w && k < 2
    ensures EndsOf(w, t)[k].0 == path[if k == 0 then 0 else |path| - 1]
    ensures var (s, n, v) := EndsOf(w, t)[k];
            VlanAsked(w, TunnelResources(t, path, iv)[k + 1], e, vlan)
            == if n.Some? && e == Pair(s, n.value) && vlan == v then 1 else 0
  {
    var r := TunnelResources(t, path, iv)[k + 1];
    assert r.VlanPort? && NamesEdge(w, r, e) == BehindPort(w, r.switch, r.port, e);
  }

  class L2TunnelPolicy {
    const tunnel: Tunnel
    var fullpath: seq<Node>
    var intermediateVlan: Option<int>
    var resources: seq<Resource>
    var endpoints: seq<(Node, Option<Node>, int)>
    var breakdown: seq<SwitchRule>

    constructor (tunnel: Tunnel)
      ensures this.tunnel == tunnel
    {
      this.tunnel := tunnel;
      fullpath, intermediateVlan, resources, endpoints, breakdown := [], None, [], [], [];
    }

    /** Picks the first usable path among the shortest ones and a VLAN that is free along it, and derives the
        resources and the rules. It fails exactly if no shortest path is usable, or if the one it picks leads
        through a node that is not a switch. */
    method BreakdownRule(tm: TopologyManager, candidates: seq<seq<Node>>) returns (r: Layout)
      requires WiringOk(tm.wiring)
      requires forall p :: p in candidates ==> CandidateOk(tm.wiring, tunnel, p) && OnTopology(tm.nodes, tm.edges, p)
      modifies this
      ensures r == NoPath <==> forall p :: p in candidates ==> !Usable(tm.nodes, tm.edges, p, tunnel.bandwidth)
      ensures r == NoPath ==> breakdown == [] && resources == []
      ensures r != NoPath ==>
        exists i :: 0 <= i < |candidates| && fullpath == candidates[i]
                    && FirstUsable(tm.nodes, tm.edges, candidates, false, tunnel.bandwidth, i)
      ensures r == OffSwitches ==> exists n :: n in fullpath && n !in tm.wiring
      ensures r == LaidOut ==> PathOk(tm.wiring, tunnel, fullpath)
      ensures r == LaidOut ==> intermediateVlan.Some? && 1 <= intermediateVlan.value < VLAN_LIMIT
      ensures r == LaidOut ==> ClearOnPath(tm.nodes, tm.edges, fullpath, intermediateVlan.value)
      ensures r == LaidOut ==> resources == TunnelResources(tunnel, fullpath, intermediateVlan.value)
      ensures r == LaidOut ==> breakdown == RulesOf(tm.wiring, tunnel, fullpath, intermediateVlan.value)
      ensures r == LaidOut ==> endpoints == EndsOf(tm.wiring, tunnel)
    {
      breakdown, resources := [], [];
      var found := tm.FindValidPath(candidates, tunnel.bandwidth, false);
      if found == None {
        return NoPath;
      }
      fullpath := found.value;
      r := LayOut(tm);
    }

    /** What follows once the path is known. */
    method LayOut(tm: TopologyManager) returns (r: Layout)
      requires CandidateOk(tm.wiring, tunnel, fullpath) && OnTopology(tm.nodes, tm.edges, fullpath)
      requires Usable(tm.nodes, tm.edges, fullpath, tunnel.bandwidth)
      modifies this`intermediateVlan, this`resources, this`endpoints, this`breakdown
      ensures r == LaidOut || r == OffSwitches
      ensures r == OffSwitches ==> exists n :: n in fullpath && n !in tm.wiring
      ensures r == LaidOut ==> PathOk(tm.wiring, tunnel, fullpath)
      ensures r == LaidOut ==> intermediateVlan.Some? && 1 <= intermediateVlan.value < VLAN_LIMIT
      ensures r == LaidOut ==> ClearOnPath(tm.nodes, tm.edges, fullpath, intermediateVlan.value)
      ensures r == LaidOut ==> resources == TunnelResources(tunnel, fullpath, intermediateVlan.value)
      ensures r == LaidOut ==> breakdown == RulesOf(tm.wiring, tunnel, fullpath, intermediateVlan.value)
      ensures r == LaidOut ==> endpoints == EndsOf(tm.wiring, tunnel)
    {
      intermediateVlan := tm.FindVlanOnPath(fullpath);
      // The source raises here when there is no VLAN; the path search has already found one.
      assert intermediateVlan.Some?;
      var iv := intermediateVlan.value;
      resources := ListResources(fullpath, iv);
      CandidatePath(tm.wiring, tunnel, fullpath);
      // A node that is not a switch has no datapath id to look up.
      if exists k :: 0 <= k < |fullpath| && fullpath[k] !in tm.wiring {
        return OffSwitches;
      }
      assert fullpath[0] in fullpath && fullpath[|fullpath| - 1] in fullpath;
      var srcNeighbor := tm.GetSwitchPortNeighbor(tunnel.srcSwitch, tunnel.srcPort);
      var dstNeighbor := tm.GetSwitchPortNeighbor(tunnel.dstSwitch, tunnel.dstPort);
      endpoints := [(tunnel.srcSwitch, srcNeighbor, tunnel.srcVlan), (tunnel.dstSwitch, dstNeighbor, tunnel.dstVlan)];
      breakdown := MakeRules(tm.wiring, fullpath, iv);
      r := LaidOut;
    }

    method ListResources(path: seq<Node>, iv: int) returns (rs: seq<Resource>)
      ensures rs == TunnelResources(tunnel, path, iv)
    {
      rs := [VlanPath(path, iv)];
      rs := rs + [VlanPort(tunnel.srcSwitch, tunnel.srcPort, tunnel.srcVlan)];
      rs := rs + [VlanPort(tunnel.dstSwitch, tunnel.dstPort, tunnel.dstVlan)];
      rs := rs + [BandwidthPath(path, tunnel.bandwidth)];
      rs := rs + [BandwidthPort(tunnel.srcSwitch, tunnel.srcPort, tunnel.bandwidth)];
      rs := rs + [BandwidthPort(tunnel.dstSwitch, tunnel.dstPort, tunnel.bandwidth)];
    }

    /** The loop over the path that builds the rules. */
    method MakeRules(w: Wiring, path: seq<Node>, iv: int) returns (rules: seq<SwitchRule>)
      requires PathOk(w, tunnel, path)
      ensures rules == RulesOf(w, tunnel, path, iv)
    {
      var n := |path|;
      if n == 1 {
        return [SwitchRule(tunnel.srcSwitch,
                           VlanRule(tunnel.srcPort, tunnel.dstPort, tunnel.srcVlan, tunnel.dstVlan, true,
                                    Some(tunnel.bandwidth)))];
      }
      assert HopOk(w, path, 0) && HopOk(w, path, n - 2);
      rules := [EndRule(w, path[0], path[1], tunnel.srcPort, tunnel.srcVlan, iv, tunnel.bandwidth)];
      rules := rules + [EndRule(w, path[n - 1], path[n - 2], tunnel.dstPort, tunnel.dstVlan, iv, tunnel.bandwidth)];
      ghost var all := RulesOf(w, tunnel, path, iv);
      for i := 1 to n - 1
        invariant rules == all[..i + 1]
      {
        assert HopOk(w, path, i - 1) && HopOk(w, path, i);
        var inPort := PortTo(w, path[i], path[i - 1]);
        var outPort := PortTo(w, path[i], path[i + 1]);
        rules := rules + [SwitchRule(path[i], VlanRule(inPort, outPort, iv, iv, true, Some(tunnel.bandwidth)))];
        assert all[i + 1] == MidRule(w, path, i, iv, tunnel.bandwidth);
      }
    }
  }

  // ----- Where a tunnel listens -----

  /** One side of one rule: what it matches when frames come in there. */
  datatype Slot = SrcIn | SrcOut | DstIn | DstOut | MidIn(i: nat) | MidOut(i: nat)

  datatype Key = Key(switch: Node, port: int, vlan: int)

  predicate Used(path: seq<Node>, s: Slot) {
    match s
    case SrcIn => true
    case DstIn => true
    case SrcOut => |path| > 1
    case DstOut => |path| > 1
    case MidIn(i) => 0 < i < |path| - 1
    case MidOut(i) => 0 < i < |path| - 1
  }

  ghost function KeyOf(w: Wiring, t: Tunnel, path: seq<Node>, iv: int, s: Slot): Key
    requires PathOk(w, t, path) && Used(path, s)
  {
    var n := |path|;
    match s
    case SrcIn => Key(t.srcSwitch, t.srcPort, t.srcVlan)
    case DstIn => Key(t.dstSwitch, t.dstPort, t.dstVlan)
    case SrcOut =>
      assert HopOk(w, path, 0);
      Key(path[0], PortTo(w, path[0], path[1]), iv)
    case DstOut =>
      assert HopOk(w, path, n - 2);
      Key(path[n - 1], PortTo(w, path[n - 1], path[n - 2]), iv)
    case MidIn(i) =>
      assert HopOk(w, path, i - 1);
      Key(path[i], PortTo(w, path[i], path[i - 1]), iv)
    case MidOut(i) =>
      assert HopOk(w, path, i);
      Key(path[i], PortTo(w, path[i], path[i + 1]), iv)
  }

  /** The other side of the same rule. */
  function Mate(path: seq<Node>, s: Slot): Slot {
    match s
    case SrcIn => if |path| == 1 then DstIn else SrcOut
    case DstIn => if |path| == 1 then SrcIn else DstOut
    case SrcOut => SrcIn
    case DstOut => DstIn
    case MidIn(i) => MidOut(i)
    case MidOut(i) => MidIn(i)
  }

  ghost function SlotFlow(w: Wiring, t: Tunnel, path: seq<Node>, iv: int, cookie: int, s: Slot): Flow
    requires PathOk(w, t, path) && Used(path, s)
  {
    var k, m := KeyOf(w, t, path, iv, s), KeyOf(w, t, path, iv, Mate(path, s));
    Steer(cookie, L2TUNNEL_TABLE, k.port, k.vlan, m.vlan, m.port)
  }

  /** The flows a tunnel puts on switch u, when no switch limits rates. */
  function FlowsOn(rules: seq<SwitchRule>, cookie: int, u: Node): seq<Flow> {
    if rules == [] then [] else
      FlowsOn(rules[..|rules| - 1], cookie, u) +
      if rules[|rules| - 1].switch == u then PlainFlows(cookie, L2TUNNEL_TABLE, rules[|rules| - 1].rule) else []
  }

  lemma {:induction false} FlowsOnIff(rules: seq<SwitchRule>, cookie: int, u: Node, x: Flow)
    ensures x in FlowsOn(rules, cookie, u) <==>
            exists r :: r in rules && r.switch == u && x in PlainFlows(cookie, L2TUNNEL_TABLE, r.rule)
    decreases |rules|
  {
    if rules != [] {
      FlowsOnIff(rules[..|rules| - 1], cookie, u, x);
      assert rules == rules[..|rules| - 1] + [rules[|rules| - 1]];
    }
  }

  /** The rule that a slot is a side of. */
  function RuleIndex(s: Slot): nat {
    match s
    case SrcIn => 0
    case SrcOut => 0
    case DstIn => 1
    case DstOut => 1
    case MidIn(i) => i + 1
    case MidOut(i) => i + 1
  }

  function RuleAt(path: seq<Node>, s: Slot): nat {
    if |path| == 1 then 0 else RuleIndex(s)
  }

  lemma SlotInRules(w: Wiring, t: Tunnel, path: seq<Node>, iv: int, cookie: int, s: Slot)
    requires PathOk(w, t, path) && Used(path, s)
    ensures Used(path, Mate(path, s)) && Mate(path, Mate(path, s)) == s
    ensures KeyOf(w, t, path, iv, Mate(path, s)).switch == KeyOf(w, t, path, iv, s).switch
    ensures RuleAt(path, s) < |RulesOf(w, t, path, iv)|
    ensures RulesOf(w, t, path, iv)[RuleAt(path, s)].switch == KeyOf(w, t, path, iv, s).switch
    ensures SlotFlow(w, t, path, iv, cookie, s)
            in PlainFlows(cookie, L2TUNNEL_TABLE, RulesOf(w, t, path, iv)[RuleAt(path, s)].rule)
  {
  }

  lemma RuleInSlots(w: Wiring, t: Tunnel, path: seq<Node>, iv: int, cookie: int, r: nat, x: Flow) returns (s: Slot)
    requires PathOk(w, t, path) && r < |RulesOf(w, t, path, iv)|
    requires x in PlainFlows(cookie, L2TUNNEL_TABLE, RulesOf(w, t, path, iv)[r].rule)
    ensures Used(path, s) && KeyOf(w, t, path, iv, s).switch == RulesOf(w, t, path, iv)[r].switch
    ensures x == SlotFlow(w, t, path, iv, cookie, s)
  {
    var flows := PlainFlows(cookie, L2TUNNEL_TABLE, RulesOf(w, t, path, iv)[r].rule);
    s := FirstSide(path, r);
    SideFlows(w, t, path, iv, cookie, r);
    if x != flows[0] { s := Mate(path, s); }
  }

  /** The slot that the r-th rule's first flow listens for. */
  function FirstSide(path: seq<Node>, r: nat): Slot {
    if r == 0 then SrcIn else if r == 1 then DstIn else MidIn(r - 1)
  }

  lemma SideFlows(w: Wiring, t: Tunnel, path: seq<Node>, iv: int, cookie: int, r: nat)
    requires PathOk(w, t, path) && r < |RulesOf(w, t, path, iv)|
    ensures var s := FirstSide(path, r);
            && Used(path, s) && Used(path, Mate(path, s))
            && KeyOf(w, t, path, iv, s).switch == RulesOf(w, t, path, iv)[r].switch
            && KeyOf(w, t, path, iv, Mate(path, s)).switch == RulesOf(w, t, path, iv)[r].switch
            && PlainFlows(cookie, L2TUNNEL_TABLE, RulesOf(w, t, path, iv)[r].rule)
               == [SlotFlow(w, t, path, iv, cookie, s), SlotFlow(w, t, path, iv, cookie, Mate(path, s))]
  {
  }

  /** The flows of a tunnel on a switch are exactly those of its slots there. */
  lemma FlowsAreSlots(w: Wiring, t: Tunnel, path: seq<Node>, iv: int, cookie: int, u: Node, x: Flow)
    requires PathOk(w, t, path)
    ensures x in FlowsOn(RulesOf(w, t, path, iv), cookie, u) <==>
            exists s :: Used(path, s) && KeyOf(w, t, path, iv, s).switch == u
              && x == SlotFlow(w, t, path, iv, cookie, s)
  {
    var rules := RulesOf(w, t, path, iv);
    FlowsOnIff(rules, cookie, u, x);
    if x in FlowsOn(rules, cookie, u) {
      var rule :| rule in rules && rule.switch == u && x in PlainFlows(cookie, L2TUNNEL_TABLE, rule.rule);
      var r :| 0 <= r < |rules| && rules[r] == rule;
      var s := RuleInSlots(w, t, path, iv, cookie, r, x);
    }
    if s :| Used(path, s) && KeyOf(w, t, path, iv, s).switch == u && x == SlotFlow(w, t, path, iv, cookie, s) {
      SlotInRules(w, t, path, iv, cookie, s);
      assert rules[RuleAt(path, s)] in rules;
    }
  }
}
