/** What the flows of a multipoint rule do with a frame inside one switch: a frame from an endpoint is put
    on the intermediate VLAN and shown to the controller; from any port of the rule it then goes to every
    other tree port unchanged, and to the endpoints on other ports on their own VLANs. */
module MultipointFlows {
  import opened Basics
  import opened OpenFlow
  import opened RyuTranslate
  import opened L2Multipoints

  function Ends(rule: MultipointRule): seq<(int, int)> {
    match rule
    case EndpointRule(_, _, endpoints, _, _) => endpoints
    case FloodRule(_, _, _) => []
  }

  ghost predicate FloodFlows(own: seq<Flow>, cookie: int, ports: seq<int>, iv: int) {
    |own| == |ports| && forall i :: 0 <= i < |ports| ==>
      own[i] == FloodFlow(cookie, FORWARDING_TABLE, ports[i], iv, None, Others(ports, ports[i]),
                          PRIORITY_L2M_FLOOD_FORWARDING)
  }

  /** `own` is what the local controller makes of the rule. */
  ghost predicate Translated(rule: MultipointRule, cookie: int, own: seq<Flow>) {
    match rule
    case EndpointRule(_, flooding, endpoints, iv, _) => EndpointFlows(own, cookie, flooding, endpoints, iv)
    case FloodRule(_, flooding, iv) => FloodFlows(own, cookie, flooding, iv)
  }

  function Actions(rule: MultipointRule, port: int): seq<LcAction> {
    FloodActions(rule.flooding, Ends(rule), port)
  }

  predicate OnPort(rule: MultipointRule, port: int) {
    port in rule.flooding || exists i :: 0 <= i < |Ends(rule)| && Ends(rule)[i].0 == port
  }

  // ----- The flows of a rule, one kind at a time -----

  predicate IsIngress(rule: MultipointRule, cookie: int, x: Flow) {
    exists i :: 0 <= i < |Ends(rule)| && x == Ingress(cookie, Ends(rule)[i].0, Ends(rule)[i].1, rule.iv)
  }

  predicate IsLearning(rule: MultipointRule, cookie: int, x: Flow) {
    exists i :: 0 <= i < |Ends(rule)| && x == Learning(cookie, Ends(rule)[i].0, rule.iv)
  }

  predicate ForwardsFrom(rule: MultipointRule, cookie: int, x: Flow, port: int) {
    || x == Flooding(cookie, port, rule.iv, Actions(rule, port))
    || x == Broadcasting(cookie, port, rule.iv, Actions(rule, port))
  }

  ghost predicate IsForwarding(rule: MultipointRule, cookie: int, x: Flow) {
    exists port :: ForwardsFrom(rule, cookie, x, port)
  }

  lemma OwnKinds(rule: MultipointRule, cookie: int, own: seq<Flow>, x: Flow)
    requires Translated(rule, cookie, own) && x in own
    ensures IsIngress(rule, cookie, x) || IsLearning(rule, cookie, x) || IsForwarding(rule, cookie, x)
  {
    var k :| 0 <= k < |own| && own[k] == x;
    KindAt(rule, cookie, own, k);
  }

  lemma KindAt(rule: MultipointRule, cookie: int, own: seq<Flow>, k: nat)
    requires Translated(rule, cookie, own) && k < |own|
    ensures IsIngress(rule, cookie, own[k]) || IsLearning(rule, cookie, own[k]) || IsForwarding(rule, cookie, own[k])
  {
    var n := 2 * |Ends(rule)|;
    if rule.FloodRule? {
      FloodKinds(rule, cookie, own, k);
    } else if k < n {
      var i, j := Halves(k);
      IngressKinds(rule, cookie, own, i, j);
    } else {
      var i, j := Halves(k - n);
      ForwardingKinds(rule, cookie, own, i, j);
    }
  }

  lemma Halves(k: nat) returns (i: nat, j: nat)
    ensures k == 2 * i + j && j < 2
  {
    i, j := k / 2, k % 2;
  }

  /** The rule's flows in one table are of one kind. */
  lemma OwnIngress(rule: MultipointRule, cookie: int, own: seq<Flow>, x: Flow) returns (i: nat)
    requires Translated(rule, cookie, own) && x in own && x.table == L2TUNNEL_TABLE
    ensures i < |Ends(rule)| && x == Ingress(cookie, Ends(rule)[i].0, Ends(rule)[i].1, rule.iv)
  {
    OwnKinds(rule, cookie, own, x);
    assert IsIngress(rule, cookie, x);
    i :| 0 <= i < |Ends(rule)| && x == Ingress(cookie, Ends(rule)[i].0, Ends(rule)[i].1, rule.iv);
  }

  /** Every flow carries the cookie of its rule. */
  lemma OwnCookies(rule: MultipointRule, cookie: int, own: seq<Flow>, x: Flow)
    requires Translated(rule, cookie, own) && x in own
    ensures x.cookie == cookie
  {
    OwnKinds(rule, cookie, own, x);
  }

  lemma OwnLearning(rule: MultipointRule, cookie: int, own: seq<Flow>, x: Flow) returns (i: nat)
    requires Translated(rule, cookie, own) && x in own && x.table == LEARNING_TABLE
    ensures i < |Ends(rule)| && x == Learning(cookie, Ends(rule)[i].0, rule.iv)
  {
    OwnKinds(rule, cookie, own, x);
    assert IsLearning(rule, cookie, x);
    i :| 0 <= i < |Ends(rule)| && x == Learning(cookie, Ends(rule)[i].0, rule.iv);
  }

  lemma OwnForwarding(rule: MultipointRule, cookie: int, own: seq<Flow>, x: Flow) returns (port: int)
    requires Translated(rule, cookie, own) && x in own && x.table == FORWARDING_TABLE
    ensures ForwardsFrom(rule, cookie, x, port)
  {
    OwnKinds(rule, cookie, own, x);
    assert IsForwarding(rule, cookie, x);
    port :| ForwardsFrom(rule, cookie, x, port);
  }

  lemma ForwardedSays(rule: MultipointRule, cookie: int, x: Flow, port: int, f: Frame)
    requires ForwardsFrom(rule, cookie, x, port) && Matches(x.on, f)
    ensures port == f.inPort && x.instructions == Instructions(Actions(rule, port), FORWARDING_TABLE)
  {
  }

  lemma FloodKinds(rule: MultipointRule, cookie: int, own: seq<Flow>, k: nat)
    requires rule.FloodRule? && Translated(rule, cookie, own) && k < |own|
    ensures IsForwarding(rule, cookie, own[k])
  {
    FloodRuleActions(rule, rule.flooding[k]);
    assert ForwardsFrom(rule, cookie, own[k], rule.flooding[k]);
  }

  lemma IngressKinds(rule: MultipointRule, cookie: int, own: seq<Flow>, i: nat, j: nat)
    requires Translated(rule, cookie, own) && i < |Ends(rule)| && j < 2
    ensures 2 * i + j < |own| && (IsIngress(rule, cookie, own[2 * i + j]) || IsLearning(rule, cookie, own[2 * i + j]))
  {
    assert IngressPair(own, cookie, Ends(rule), rule.iv, i);
  }

  lemma ForwardingKinds(rule: MultipointRule, cookie: int, own: seq<Flow>, i: nat, j: nat)
    requires rule.EndpointRule? && Translated(rule, cookie, own) && i < |rule.flooding| + |Ends(rule)| && j < 2
    ensures 2 * |Ends(rule)| + 2 * i + j < |own| && IsForwarding(rule, cookie, own[2 * |Ends(rule)| + 2 * i + j])
  {
    var start, port := 2 * |Ends(rule)|, (rule.flooding + EndpointPorts(Ends(rule)))[i];
    assert ForwardingPair(own, start, cookie, rule.flooding, Ends(rule), rule.iv, i);
    if j == 0 {
      assert ForwardsFrom(rule, cookie, own[start + 2 * i], port);
    } else {
      assert ForwardsFrom(rule, cookie, own[start + 2 * i + 1], port);
    }
  }

  lemma FloodRuleActions(rule: MultipointRule, port: int)
    requires rule.FloodRule?
    ensures Actions(rule, port) == Others(rule.flooding, port)
  {
    assert Others(rule.flooding, port) + [] == Others(rule.flooding, port);
  }

  lemma HasIngress(rule: MultipointRule, cookie: int, own: seq<Flow>, i: nat)
    requires Translated(rule, cookie, own) && i < |Ends(rule)|
    ensures Ingress(cookie, Ends(rule)[i].0, Ends(rule)[i].1, rule.iv) in own
            && Learning(cookie, Ends(rule)[i].0, rule.iv) in own
  {
    assert IngressPair(own, cookie, Ends(rule), rule.iv, i);
  }

  lemma HasForwarding(rule: MultipointRule, cookie: int, own: seq<Flow>, port: int)
    requires Translated(rule, cookie, own) && OnPort(rule, port)
    ensures Flooding(cookie, port, rule.iv, Actions(rule, port)) in own
  {
    var ends := Ends(rule);
    if rule.FloodRule? {
      var i :| 0 <= i < |rule.flooding| && rule.flooding[i] == port;
      FloodRuleActions(rule, port);
      assert own[i] in own;
    } else {
      var ports := rule.flooding + EndpointPorts(ends);
      var i := PortIndex(rule, port);
      assert ForwardingPair(own, 2 * |ends|, cookie, rule.flooding, ends, rule.iv, i);
    }
  }

  lemma PortIndex(rule: MultipointRule, port: int) returns (i: nat)
    requires OnPort(rule, port)
    ensures i < |rule.flooding| + |Ends(rule)| && (rule.flooding + EndpointPorts(Ends(rule)))[i] == port
  {
    if port in rule.flooding {
      i :| 0 <= i < |rule.flooding| && rule.flooding[i] == port;
    } else {
      var j :| 0 <= j < |Ends(rule)| && Ends(rule)[j].0 == port;
      i := |rule.flooding| + j;
    }
  }

  // ----- What a flooded frame turns into -----

  /** To every other port, as it is. */
  function ToPorts(ports: seq<int>, port: int, tags: seq<int>): seq<Out> {
    if ports == [] then [] else
      ToPorts(ports[..|ports| - 1], port, tags) + if ports[|ports| - 1] != port then [Out(ports[|ports| - 1], tags)]
        else []
  }

  /** To every endpoint on another port, on its own VLAN. */
  function ToEnds(ends: seq<(int, int)>, port: int, inner: seq<int>): seq<Out> {
    if ends == [] then [] else
      var (p, v) := ends[|ends| - 1];
      ToEnds(ends[..|ends| - 1], port, inner) + if p != port then [Out(p, [v] + inner)] else []
  }

  function Flooded(rule: MultipointRule, port: int, inner: seq<int>): seq<Out> {
    ToPorts(rule.flooding, port, [rule.iv] + inner) + ToEnds(Ends(rule), port, inner)
  }

  lemma {:induction false} WireConcat(a: seq<LcAction>, b: seq<LcAction>)
    ensures WireActions(a + b) == WireActions(a) + WireActions(b)
    decreases |b|
  {
    if b == [] {
      assert a + b == a;
    } else {
      var s := a + b;
      assert s[..|s| - 1] == a + b[..|b| - 1] && s[|s| - 1] == b[|b| - 1];
      WireConcat(a, b[..|b| - 1]);
    }
  }

  lemma {:induction false} EmittedConcat(port: int, tags: seq<int>, a: seq<Action>, b: seq<Action>)
    ensures Emitted(port, tags, a + b) == Emitted(port, tags, a) + Emitted(port, Tagged(tags, a), b)
    ensures Tagged(tags, a + b) == Tagged(Tagged(tags, a), b)
    decreases |a|
  {
    if a == [] {
      assert a + b == b;
    } else {
      assert (a + b)[1..] == a[1..] + b && (a + b)[0] == a[0];
      EmittedConcat(port, Retag(tags, a[0]), a[1..], b);
      var first := if a[0].Output? && a[0].port != port then [Out(a[0].port, tags)] else [];
      Regroup(first, Emitted(port, Retag(tags, a[0]), a[1..]), Emitted(port, Tagged(tags, a), b));
    }
  }

  lemma OneForward(port: int, tags: seq<int>, p: int)
    ensures WireActions([Forward(p)]) == [Output(p)]
    ensures Emitted(port, tags, [Output(p)]) == (if p != port then [Out(p, tags)] else [])
            && Tagged(tags, [Output(p)]) == tags
  {
    assert [Forward(p)][..0] == [] && [Output(p)][1..] == [];
  }

  lemma {:induction false} PortsEmitted(ports: seq<int>, port: int, tags: seq<int>)
    ensures Emitted(port, tags, WireActions(Others(ports, port))) == ToPorts(ports, port, tags)
    ensures Tagged(tags, WireActions(Others(ports, port))) == tags
    decreases |ports|
  {
    if ports != [] {
      var front, p := ports[..|ports| - 1], ports[|ports| - 1];
      PortsEmitted(front, port, tags);
      if p != port {
        WireConcat(Others(front, port), [Forward(p)]);
        OneForward(port, tags, p);
        EmittedConcat(port, tags, WireActions(Others(front, port)), [Output(p)]);
      } else {
        assert Others(ports, port) == Others(front, port);
      }
    }
  }

  lemma OneEnd(port: int, tags: seq<int>, p: int, v: int)
    requires tags != [] && p != port
    ensures WireActions([SetField(v), Forward(p)]) == [SetVlan(v), Output(p)]
    ensures Emitted(port, tags, [SetVlan(v), Output(p)]) == [Out(p, [v] + tags[1..])]
    ensures Tagged(tags, [SetVlan(v), Output(p)]) == [v] + tags[1..]
  {
    TwoWires(p, v);
    OneForward(port, [v] + tags[1..], p);
    assert [SetVlan(v), Output(p)][1..] == [Output(p)];
    assert Retag(tags, SetVlan(v)) == [v] + tags[1..];
  }

  lemma TwoWires(p: int, v: int)
    ensures WireActions([SetField(v), Forward(p)]) == [SetVlan(v), Output(p)]
  {
    var actions := [SetField(v), Forward(p)];
    assert actions[..1] == [SetField(v)] && [SetField(v)][..0] == [];
    assert WireActions([SetField(v)]) == [SetVlan(v)];
  }

  lemma {:induction false} EndsEmitted(ends: seq<(int, int)>, port: int, tags: seq<int>)
    requires tags != []
    ensures Emitted(port, tags, WireActions(ToEndpoints(ends, port))) == ToEnds(ends, port, tags[1..])
    ensures Tagged(tags, WireActions(ToEndpoints(ends, port))) != []
    ensures Tagged(tags, WireActions(ToEndpoints(ends, port)))[1..] == tags[1..]
    decreases |ends|
  {
    if ends != [] {
      var front := ends[..|ends| - 1];
      var (p, v) := ends[|ends| - 1];
      EndsEmitted(front, port, tags);
      if p != port {
        var wire := WireActions(ToEndpoints(front, port));
        WireConcat(ToEndpoints(front, port), [SetField(v), Forward(p)]);
        OneEnd(port, Tagged(tags, wire), p, v);
        EmittedConcat(port, tags, wire, [SetVlan(v), Output(p)]);
      } else {
        assert ToEndpoints(ends, port) == ToEndpoints(front, port);
      }
    }
  }

  lemma ActionsEmitted(rule: MultipointRule, port: int, inner: seq<int>)
    ensures Emitted(port, [rule.iv] + inner, WireActions(Actions(rule, port))) == Flooded(rule, port, inner)
  {
    var tags := [rule.iv] + inner;
    assert tags[1..] == inner;
    WireConcat(Others(rule.flooding, port), ToEndpoints(Ends(rule), port));
    PortsEmitted(rule.flooding, port, tags);
    EndsEmitted(Ends(rule), port, tags);
    EmittedConcat(port, tags, WireActions(Others(rule.flooding, port)), WireActions(ToEndpoints(Ends(rule), port)));
  }

  lemma {:induction false} NoJump(actions: seq<LcAction>, table: int)
    requires forall i :: 0 <= i < |actions| ==> actions[i].IsWire()
    ensures FirstJump(actions, table) == None
  {
    if actions != [] { NoJump(actions[1..], table); }
  }

  lemma {:induction false} OthersWire(ports: seq<int>, port: int)
    ensures forall a :: a in Others(ports, port) ==> a.IsWire()
    decreases |ports|
  {
    if ports != [] { OthersWire(ports[..|ports| - 1], port); }
  }

  lemma {:induction false} EndpointsWire(ends: seq<(int, int)>, port: int)
    ensures forall a :: a in ToEndpoints(ends, port) ==> a.IsWire()
    decreases |ends|
  {
    if ends != [] { EndpointsWire(ends[..|ends| - 1], port); }
  }

  // ----- The pipeline -----

  predicate AtEnd(rule: MultipointRule, port: int, vlan: int) {
    exists i :: 0 <= i < |Ends(rule)| && Ends(rule)[i] == (port, vlan)
  }

  predicate IsEndPort(rule: MultipointRule, port: int) {
    exists i :: 0 <= i < |Ends(rule)| && Ends(rule)[i].0 == port
  }

  /** A flow that hears the frame would decide what becomes of it. In the first table that is any flow on a
      tree port, and on an endpoint's port one that is as important as the rule's ingress flow; later it is a
      flow on the intermediate VLAN, in the last two tables if it is as important as the rule's own. */
  predicate Concerns(rule: MultipointRule, f: Frame, x: Flow) {
    && f.tags != []
    && if x.table == L2TUNNEL_TABLE then
         !IsEndPort(rule, f.inPort) || (AtEnd(rule, f.inPort, f.tags[0]) && x.priority >= PRIORITY_L2MULTIPOINT)
       else
         && f.tags[0] == rule.iv
         && (x.table == LEARNING_TABLE && IsEndPort(rule, f.inPort) ==> x.priority >= PRIORITY_L2MULTIPOINT_LEARNING)
         && (x.table == FORWARDING_TABLE ==> x.priority >= PRIORITY_L2M_FLOOD_FORWARDING)
  }

  /** The switch has its starting rules and the rule's flows, and no other flow decides about the frame. */
  ghost predicate Hosts(rule: MultipointRule, flows: seq<Flow>, own: seq<Flow>, f: Frame) {
    && HasDefaults(flows) && (forall x :: x in own ==> x in flows)
    && forall x :: x in flows && Matches(x.on, f) && Concerns(rule, f, x) ==> x in own || x in Bootstrap(-1)
  }

  /** Every flow of the last table that hears the frame says to flood it. */
  lemma ForwardingBest(rule: MultipointRule, cookie: int, own: seq<Flow>, flows: seq<Flow>, f: Frame)
    requires Translated(rule, cookie, own) && OnPort(rule, f.inPort) && Hosts(rule, flows, own, f) && f.tags != []
             && f.tags[0] == rule.iv
    ensures Best(flows, FORWARDING_TABLE, f).Some?
    ensures Best(flows, FORWARDING_TABLE, f).value.instructions
            == Instructions(Actions(rule, f.inPort), FORWARDING_TABLE)
  {
    var says := Instructions(Actions(rule, f.inPort), FORWARDING_TABLE);
    var mine := Flooding(cookie, f.inPort, rule.iv, Actions(rule, f.inPort));
    HasForwarding(rule, cookie, own, f.inPort);
    assert Hits(mine, FORWARDING_TABLE, f) && mine.priority == PRIORITY_L2M_FLOOD_FORWARDING;
    forall x | x in flows && Hits(x, FORWARDING_TABLE, f) && x.priority >= PRIORITY_L2M_FLOOD_FORWARDING
      ensures x.instructions == says
    {
      ForwardingSays(rule, cookie, own, flows, f, x);
    }
    BestSays(flows, FORWARDING_TABLE, f, PRIORITY_L2M_FLOOD_FORWARDING, says);
  }

  lemma ForwardingSays(rule: MultipointRule, cookie: int, own: seq<Flow>, flows: seq<Flow>, f: Frame, x: Flow)
    requires Translated(rule, cookie, own) && Hosts(rule, flows, own, f)
    requires x in flows && Hits(x, FORWARDING_TABLE, f) && x.priority >= PRIORITY_L2M_FLOOD_FORWARDING
    requires f.tags != [] && f.tags[0] == rule.iv
    ensures x.instructions == Instructions(Actions(rule, f.inPort), FORWARDING_TABLE)
  {
    InBootstrap(x);
    var port := OwnForwarding(rule, cookie, own, x);
    ForwardedSays(rule, cookie, x, port, f);
  }

  lemma FloodJumps(rule: MultipointRule, port: int)
    ensures FirstJump(Actions(rule, port), FORWARDING_TABLE) == None
  {
    OthersWire(rule.flooding, port);
    EndpointsWire(Ends(rule), port);
    NoJump(Actions(rule, port), FORWARDING_TABLE);
  }

  /** The last table: the frame is flooded. */
  lemma ForwardingTable(rule: MultipointRule, cookie: int, own: seq<Flow>, flows: seq<Flow>, port: int, inner: seq<int>,
                        dst: int)
    requires Translated(rule, cookie, own) && OnPort(rule, port)
             && Hosts(rule, flows, own, Frame(port, [rule.iv] + inner, dst))
    ensures Process(flows, FORWARDING_TABLE, Frame(port, [rule.iv] + inner, dst)) == Flooded(rule, port, inner)
  {
    var f := Frame(port, [rule.iv] + inner, dst);
    var says := Instructions(Actions(rule, port), FORWARDING_TABLE);
    ForwardingBest(rule, cookie, own, flows, f);
    InstructionsMean(Actions(rule, port), FORWARDING_TABLE);
    FloodJumps(rule, port);
    FinalProcess(flows, FORWARDING_TABLE, f, says);
    ActionsEmitted(rule, port, inner);
  }

  /** Before the last table, only an endpoint's own frames are heard. */
  lemma NotHeard(rule: MultipointRule, cookie: int, own: seq<Flow>, flows: seq<Flow>, table: int, f: Frame)
    requires Translated(rule, cookie, own) && Hosts(rule, flows, own, f) && 0 <= table < FORWARDING_TABLE
    requires f.tags != [] && f.tags[0] == rule.iv && (IsEndPort(rule, f.inPort) ==> 0 < table < LEARNING_TABLE)
    ensures Unheard(flows, table, f)
  {
    forall x | x in flows && Hits(x, table, f) ensures x in Bootstrap(-1) {
      if x !in Bootstrap(-1) {
        OwnKinds(rule, cookie, own, x);
        assert false;
      }
    }
  }

  /** A frame from a tree port passes the first tables untouched. */
  lemma FromTree(rule: MultipointRule, cookie: int, own: seq<Flow>, flows: seq<Flow>, port: int, inner: seq<int>,
                 dst: int)
    requires Translated(rule, cookie, own) && port in rule.flooding && !IsEndPort(rule, port)
    requires Hosts(rule, flows, own, Frame(port, [rule.iv] + inner, dst))
    ensures Process(flows, L2TUNNEL_TABLE, Frame(port, [rule.iv] + inner, dst)) == Flooded(rule, port, inner)
  {
    var f := Frame(port, [rule.iv] + inner, dst);
    for table := 0 to FORWARDING_TABLE
      invariant Process(flows, L2TUNNEL_TABLE, f) == Process(flows, table, f)
    {
      NotHeard(rule, cookie, own, flows, table, f);
      DefaultStep(flows, table, f);
    }
    ForwardingTable(rule, cookie, own, flows, port, inner, dst);
  }

  // ----- From an endpoint -----

  /** The first table puts the frame on the intermediate VLAN. */
  lemma IngressTable(rule: MultipointRule, cookie: int, own: seq<Flow>, flows: seq<Flow>, i: nat, inner: seq<int>,
                     dst: int)
    requires Translated(rule, cookie, own) && i < |Ends(rule)|
    requires Hosts(rule, flows, own, Frame(Ends(rule)[i].0, [Ends(rule)[i].1] + inner, dst))
    ensures var (port, vlan) := Ends(rule)[i];
            Process(flows, L2TUNNEL_TABLE, Frame(port, [vlan] + inner, dst))
              == Process(flows, 1, Frame(port, [rule.iv] + inner, dst))
  {
    var (port, vlan) := Ends(rule)[i];
    var f := Frame(port, [vlan] + inner, dst);
    var says := Instructions([SetField(rule.iv), Continue], L2TUNNEL_TABLE);
    var mine := Ingress(cookie, port, vlan, rule.iv);
    HasIngress(rule, cookie, own, i);
    assert Hits(mine, L2TUNNEL_TABLE, f) && mine.priority == PRIORITY_L2MULTIPOINT;
    forall x | x in flows && Hits(x, L2TUNNEL_TABLE, f) && x.priority >= PRIORITY_L2MULTIPOINT
      ensures x.instructions == says
    {
      InBootstrap(x);
      var j := OwnIngress(rule, cookie, own, x);
    }
    BestSays(flows, L2TUNNEL_TABLE, f, PRIORITY_L2MULTIPOINT, says);
    IngressMeans(rule.iv);
    JustRetags(port, vlan, inner, rule.iv);
    SilentProcess(flows, L2TUNNEL_TABLE, f);
  }

  lemma JustRetags(port: int, vlan: int, inner: seq<int>, iv: int)
    ensures Emitted(port, [vlan] + inner, [SetVlan(iv)]) == []
    ensures Tagged([vlan] + inner, [SetVlan(iv)]) == [iv] + inner
  {
    assert ([vlan] + inner)[1..] == inner && [SetVlan(iv)][1..] == [];
  }

  lemma IngressMeans(iv: int)
    ensures Applied(Instructions([SetField(iv), Continue], L2TUNNEL_TABLE)) == [SetVlan(iv)]
    ensures NextTable(Instructions([SetField(iv), Continue], L2TUNNEL_TABLE)) == Some(1)
  {
    InstructionsMean([SetField(iv), Continue], L2TUNNEL_TABLE);
    assert [SetField(iv), Continue][..1] == [SetField(iv)] && [SetField(iv)][..0] == [];
    assert WireActions([SetField(iv)]) == [SetVlan(iv)];
    assert [SetField(iv), Continue][1..] == [Continue];
  }

  lemma LearningMeans()
    ensures Applied(Instructions([Continue, Forward(OFPP_CONTROLLER)], LEARNING_TABLE)) == [Output(OFPP_CONTROLLER)]
    ensures NextTable(Instructions([Continue, Forward(OFPP_CONTROLLER)], LEARNING_TABLE)) == Some(FORWARDING_TABLE)
  {
    InstructionsMean([Continue, Forward(OFPP_CONTROLLER)], LEARNING_TABLE);
    assert [Continue, Forward(OFPP_CONTROLLER)][..1] == [Continue] && [Continue][..0] == [];
    assert WireActions([Continue]) == [];
  }

  /** The learning table shows the frame to the controller and passes it on. */
  lemma LearningTable(rule: MultipointRule, cookie: int, own: seq<Flow>, flows: seq<Flow>, i: nat, inner: seq<int>,
                      dst: int)
    requires Translated(rule, cookie, own) && i < |Ends(rule)| && Ends(rule)[i].0 != OFPP_CONTROLLER
    requires Hosts(rule, flows, own, Frame(Ends(rule)[i].0, [rule.iv] + inner, dst))
    ensures var f := Frame(Ends(rule)[i].0, [rule.iv] + inner, dst);
            Process(flows, LEARNING_TABLE, f) == [Out(OFPP_CONTROLLER, f.tags)] + Process(flows, FORWARDING_TABLE, f)
  {
    var f := Frame(Ends(rule)[i].0, [rule.iv] + inner, dst);
    var says := Instructions([Continue, Forward(OFPP_CONTROLLER)], LEARNING_TABLE);
    var mine := Learning(cookie, f.inPort, rule.iv);
    HasIngress(rule, cookie, own, i);
    assert Hits(mine, LEARNING_TABLE, f) && mine.priority == PRIORITY_L2MULTIPOINT_LEARNING;
    forall x | x in flows && Hits(x, LEARNING_TABLE, f) && x.priority >= PRIORITY_L2MULTIPOINT_LEARNING
      ensures x.instructions == says
    {
      InBootstrap(x);
      var j := OwnLearning(rule, cookie, own, x);
    }
    BestSays(flows, LEARNING_TABLE, f, PRIORITY_L2MULTIPOINT_LEARNING, says);
    LearningMeans();
    OneForward(f.inPort, f.tags, OFPP_CONTROLLER);
    assert f.(tags := f.tags) == f;
  }

  lemma MiddleTables(rule: MultipointRule, cookie: int, own: seq<Flow>, flows: seq<Flow>, f: Frame)
    requires Translated(rule, cookie, own) && Hosts(rule, flows, own, f) && f.tags != [] && f.tags[0] == rule.iv
    ensures Process(flows, 1, f) == Process(flows, LEARNING_TABLE, f)
  {
    NotHeard(rule, cookie, own, flows, 1, f);
    DefaultStep(flows, 1, f);
    NotHeard(rule, cookie, own, flows, 2, f);
    DefaultStep(flows, 2, f);
  }

  /** A frame from an endpoint goes to the controller and is flooded. */
  lemma FromEndpoint(rule: MultipointRule, cookie: int, own: seq<Flow>, flows: seq<Flow>, i: nat, inner: seq<int>,
                     dst: int)
    requires Translated(rule, cookie, own) && i < |Ends(rule)| && Ends(rule)[i].0 != OFPP_CONTROLLER
    requires Hosts(rule, flows, own, Frame(Ends(rule)[i].0, [Ends(rule)[i].1] + inner, dst))
    requires Hosts(rule, flows, own, Frame(Ends(rule)[i].0, [rule.iv] + inner, dst))
    ensures var (port, vlan) := Ends(rule)[i];
            Process(flows, L2TUNNEL_TABLE, Frame(port, [vlan] + inner, dst))
            == [Out(OFPP_CONTROLLER, [rule.iv] + inner)] + Flooded(rule, port, inner)
  {
    var f := Frame(Ends(rule)[i].0, [rule.iv] + inner, dst);
    IngressTable(rule, cookie, own, flows, i, inner, dst);
    MiddleTables(rule, cookie, own, flows, f);
    LearningTable(rule, cookie, own, flows, i, inner, dst);
    ForwardingTable(rule, cookie, own, flows, f.inPort, inner, dst);
  }

  // ----- A switch on which the rule prevails -----

  /** The frames a rule is meant for: on its ports on the intermediate VLAN, and from its endpoints. */
  predicate HeardBy(rule: MultipointRule, f: Frame) {
    f.tags != [] && ((OnPort(rule, f.inPort) && f.tags[0] == rule.iv) || AtEnd(rule, f.inPort, f.tags[0]))
  }

  ghost predicate Prevails(rule: MultipointRule, own: seq<Flow>, flows: seq<Flow>) {
    forall f {:trigger Hosts(rule, flows, own, f)} :: HeardBy(rule, f) ==> Hosts(rule, flows, own, f)
  }

  lemma FloodsFromTree(rule: MultipointRule, cookie: int, own: seq<Flow>, flows: seq<Flow>, port: int, inner: seq<int>,
                       dst: int)
    requires Translated(rule, cookie, own) && Prevails(rule, own, flows) && port in rule.flooding
             && !IsEndPort(rule, port)
    ensures Process(flows, L2TUNNEL_TABLE, Frame(port, [rule.iv] + inner, dst)) == Flooded(rule, port, inner)
  {
    assert HeardBy(rule, Frame(port, [rule.iv] + inner, dst));
    FromTree(rule, cookie, own, flows, port, inner, dst);
  }

  lemma FloodsFromEndpoint(rule: MultipointRule, cookie: int, own: seq<Flow>, flows: seq<Flow>, i: nat, inner: seq<int>,
                           dst: int)
    requires Translated(rule, cookie, own) && Prevails(rule, own, flows) && i < |Ends(rule)|
             && Ends(rule)[i].0 != OFPP_CONTROLLER
    ensures var (port, vlan) := Ends(rule)[i];
            Process(flows, L2TUNNEL_TABLE, Frame(port, [vlan] + inner, dst))
            == [Out(OFPP_CONTROLLER, [rule.iv] + inner)] + Flooded(rule, port, inner)
  {
    assert HeardBy(rule, Frame(Ends(rule)[i].0, [Ends(rule)[i].1] + inner, dst));
    assert HeardBy(rule, Frame(Ends(rule)[i].0, [rule.iv] + inner, dst));
    FromEndpoint(rule, cookie, own, flows, i, inner, dst);
  }
}
