/** The local controller's translation of rules into OpenFlow flows. */
module RyuTranslate {
  import opened Basics
  import opened OpenFlow

  const L2TUNNEL_TABLE := 0
  const LEARNING_TABLE := 3
  const FORWARDING_TABLE := 4

  const PRIORITY_DEFAULT := 0
  const PRIORITY_GENERIC_LEARNING := 0
  const PRIORITY_GENERIC_LEARNED := 1
  const PRIORITY_FLOOD_FORWARDING := 1
  const PRIORITY_L2MULTIPOINT := 1
  const PRIORITY_L2MULTIPOINT_LEARNING := 2
  const PRIORITY_L2M_FLOOD_FORWARDING := 3
  const PRIORITY_L2M_BROADCAST_FORWARDING := 4
  const PRIORITY_MATCH_ACTION := 100

  const BROADCAST := 0xffffffffffff

  /** The values on the wire, and who yields to whom: in the first table LANs to tunnels, in the learning table
      edge ports to LANs, in the last learned addresses and flood trees to LANs, and the defaults to all of them but
      the edge ports. */
  lemma Precedence()
    ensures OFPP_CONTROLLER == 0x1_0000_0000 - 3 && BROADCAST == 0x1_0000_0000_0000 - 1
    ensures 0 == PRIORITY_DEFAULT < PRIORITY_L2MULTIPOINT == 1 < PRIORITY_MATCH_ACTION == 100
    ensures PRIORITY_DEFAULT == PRIORITY_GENERIC_LEARNING < PRIORITY_L2MULTIPOINT_LEARNING == 2
    ensures PRIORITY_DEFAULT < PRIORITY_GENERIC_LEARNED == PRIORITY_FLOOD_FORWARDING == 1
    ensures 1 < PRIORITY_L2M_FLOOD_FORWARDING == 3 < PRIORITY_L2M_BROADCAST_FORWARDING == 4
  {
  }

  datatype LcAction =
    | Forward(port: int) | SetField(vlan: int) | PushVlanTag | PopVlanTag
    | Drop | Continue | GotoTable(table: int) | WriteMetadata(value: int, mask: int)
  {
    /** The kinds that end up in an apply-actions instruction. */
    predicate IsWire() {
      Forward? || SetField? || PushVlanTag? || PopVlanTag?
    }
  }

  // ----- Actions to instructions -----

  function WireAction(a: LcAction): Action
    requires a.IsWire()
  {
    match a
    case Forward(p) => Output(p)
    case SetField(v) => SetVlan(v)
    case PushVlanTag => PushVlan
    case PopVlanTag => PopVlan
  }

  function ControlInstruction(a: LcAction, table: int): Instruction
    requires !a.IsWire()
  {
    match a
    case Drop => Clear
    case Continue => Goto(table + 1)
    case GotoTable(t) => Goto(t)
    case WriteMetadata(v, m) => Metadata(v, m)
  }

  /** The actions collected since the last instruction. */
  function Pending(actions: seq<LcAction>): seq<Action> {
    if actions == [] || !actions[|actions| - 1].IsWire() then []
    else Pending(actions[..|actions| - 1]) + [WireAction(actions[|actions| - 1])]
  }

  function Flushed(pending: seq<Action>): seq<Instruction> {
    if pending == [] then [] else [Apply(pending)]
  }

  /** The instructions finished so far. */
  function Finished(actions: seq<LcAction>, table: int): seq<Instruction> {
    if actions == [] then [] else
      var front, last := actions[..|actions| - 1], actions[|actions| - 1];
      if last.IsWire() then Finished(front, table)
      else Finished(front, table) + Flushed(Pending(front)) + [ControlInstruction(last, table)]
  }

  function Instructions(actions: seq<LcAction>, table: int): seq<Instruction> {
    Finished(actions, table) + Flushed(Pending(actions))
  }

  method TranslateLcAction(actions: seq<LcAction>, table: int) returns (instructions: seq<Instruction>)
    ensures instructions == Instructions(actions, table)
  {
    instructions := [];
    var aaResults: seq<Action> := [];
    for i := 0 to |actions|
      invariant instructions == Finished(actions[..i], table) && aaResults == Pending(actions[..i])
    {
      var action := actions[i];
      assert actions[..i + 1][..i] == actions[..i];
      if action.IsWire() {
        aaResults := aaResults + [WireAction(action)];
      } else {
        if |aaResults| > 0 {
          instructions := instructions + [Apply(aaResults)];
          aaResults := [];
        }
        instructions := instructions + [ControlInstruction(action, table)];
      }
    }
    assert actions[..|actions|] == actions;
    if |aaResults| > 0 {
      instructions := instructions + [Apply(aaResults)];
    }
  }

  /** What the actions ask the switch to do to the frame, in order. */
  function WireActions(actions: seq<LcAction>): seq<Action> {
    if actions == [] then [] else
      WireActions(actions[..|actions| - 1]) +
      if actions[|actions| - 1].IsWire() then [WireAction(actions[|actions| - 1])] else []
  }

  /** The first jump the actions ask for. */
  function FirstJump(actions: seq<LcAction>, table: int): Option<int> {
    if actions == [] then None
    else if actions[0].Continue? then Some(table + 1)
    else if actions[0].GotoTable? then Some(actions[0].table)
    else FirstJump(actions[1..], table)
  }

  lemma {:induction false} AppliedConcat(a: seq<Instruction>, b: seq<Instruction>)
    ensures Applied(a + b) == Applied(a) + Applied(b)
  {
    if a == [] {
      assert a + b == b;
    } else {
      assert (a + b)[1..] == a[1..] + b;
      AppliedConcat(a[1..], b);
    }
  }

  lemma {:induction false} NextConcat(a: seq<Instruction>, b: seq<Instruction>)
    ensures NextTable(a + b) == if NextTable(a).Some? then NextTable(a) else NextTable(b)
  {
    if a == [] {
      assert a + b == b;
    } else {
      assert (a + b)[1..] == a[1..] + b;
      NextConcat(a[1..], b);
    }
  }

  lemma {:induction false} JumpConcat(a: seq<LcAction>, b: seq<LcAction>, table: int)
    ensures FirstJump(a + b, table) == if FirstJump(a, table).Some? then FirstJump(a, table) else FirstJump(b, table)
  {
    if a == [] {
      assert a + b == b;
    } else {
      assert (a + b)[1..] == a[1..] + b;
      JumpConcat(a[1..], b, table);
    }
  }

  lemma FlushedMeans(pending: seq<Action>)
    ensures Applied(Flushed(pending)) == pending && NextTable(Flushed(pending)) == None
  {
  }

  /** What a finished part and the actions pending after it mean together. */
  lemma PartsMean(finished: seq<Instruction>, pending: seq<Action>)
    ensures Applied(finished + Flushed(pending)) == Applied(finished) + pending
    ensures NextTable(finished + Flushed(pending)) == NextTable(finished)
  {
    FlushedMeans(pending);
    AppliedConcat(finished, Flushed(pending));
    NextConcat(finished, Flushed(pending));
  }

  lemma ControlMeans(finished: seq<Instruction>, a: LcAction, table: int)
    requires !a.IsWire()
    ensures Applied(finished + [ControlInstruction(a, table)]) == Applied(finished)
    ensures NextTable(finished + [ControlInstruction(a, table)])
         == if NextTable(finished).Some? then NextTable(finished) else FirstJump([a], table)
  {
    AppliedConcat(finished, [ControlInstruction(a, table)]);
    NextConcat(finished, [ControlInstruction(a, table)]);
  }

  /** Grouping loses nothing: the switch applies exactly the frame actions, in order, and takes the
      first jump. */
  lemma {:induction false} InstructionsMean(actions: seq<LcAction>, table: int)
    ensures Applied(Instructions(actions, table)) == WireActions(actions)
    ensures NextTable(Instructions(actions, table)) == FirstJump(actions, table)
    decreases |actions|
  {
    if actions != [] {
      var front, last := actions[..|actions| - 1], actions[|actions| - 1];
      assert actions == front + [last];
      InstructionsMean(front, table);
      JumpConcat(front, [last], table);
      PartsMean(Finished(front, table), Pending(front));
      PartsMean(Finished(actions, table), Pending(actions));
      if !last.IsWire() {
        ControlMeans(Instructions(front, table), last, table);
      }
    }
  }

  /** The instructions that are not about the frame itself. */
  function Controls(instructions: seq<Instruction>): seq<Instruction> {
    if instructions == [] then [] else
      var last := instructions[|instructions| - 1];
      Controls(instructions[..|instructions| - 1]) + if last.Apply? then [] else [last]
  }

  function ControlsAsked(actions: seq<LcAction>, table: int): seq<Instruction> {
    if actions == [] then [] else
      ControlsAsked(actions[..|actions| - 1], table) +
      match actions[|actions| - 1]
      case Drop => [Clear]
      case Continue => [Goto(table + 1)]
      case GotoTable(t) => [Goto(t)]
      case WriteMetadata(value, mask) => [Metadata(value, mask)]
      case _ => []
  }

  lemma ControlsMore(instructions: seq<Instruction>, x: Instruction)
    ensures Controls(instructions + [x]) == Controls(instructions) + if x.Apply? then [] else [x]
  {
    assert (instructions + [x])[..|instructions|] == instructions;
  }

  lemma FlushedControls(instructions: seq<Instruction>, pending: seq<Action>)
    ensures Controls(instructions + Flushed(pending)) == Controls(instructions)
  {
    if pending == [] { assert instructions + [] == instructions; } else { ControlsMore(instructions, Apply(pending)); }
  }

  lemma {:induction false} FinishedControls(actions: seq<LcAction>, table: int)
    ensures Controls(Finished(actions, table)) == ControlsAsked(actions, table)
    decreases |actions|
  {
    if actions != [] {
      var front, last := actions[..|actions| - 1], actions[|actions| - 1];
      FinishedControls(front, table);
      if !last.IsWire() {
        FlushedControls(Finished(front, table), Pending(front));
        ControlsMore(Finished(front, table) + Flushed(Pending(front)), ControlInstruction(last, table));
      }
    }
  }

  /** Nor are the other instructions lost or mixed up: they are what the actions ask for, in order. */
  lemma ControlsKept(actions: seq<LcAction>, table: int)
    ensures Controls(Instructions(actions, table)) == ControlsAsked(actions, table)
  {
    FinishedControls(actions, table);
    FlushedControls(Finished(actions, table), Pending(actions));
  }

  /** No instruction applies nothing: the actions are flushed only when some are pending. */
  lemma {:induction false} NeverIdle(actions: seq<LcAction>, table: int)
    ensures Apply([]) !in Instructions(actions, table)
    decreases |actions|
  {
    if actions != [] {
      var front, last := actions[..|actions| - 1], actions[|actions| - 1];
      NeverIdle(front, table);
      if last.IsWire() { assert Apply([]) !in Finished(front, table); }
    }
  }

  // ----- Match-action rules -----

  function MatchAction(cookie: int, table: int, on: Match, actions: seq<LcAction>, priority: int): Flow {
    Flow(cookie, table, priority, on, Instructions(actions, table))
  }

  method TranslateMatchAction(cookie: int, table: int, on: Match, actions: seq<LcAction>, priority: int)
    returns (results: seq<Flow>)
    ensures results == [MatchAction(cookie, table, on, actions, priority)]
  {
    var instructions := TranslateLcAction(actions, table);
    results := [Flow(cookie, table, priority, on, instructions)];
  }

  function PortVlan(port: int, vlan: int): Match {
    Match(Some(port), Some(vlan), None)
  }

  // ----- VLAN tunnel rules -----

  datatype VlanRule = VlanRule(inPort: int, outPort: int, vlanIn: int, vlanOut: int, bidirectional: bool,
                               bandwidth: Option<int>)

  /** Corsa switches send reserved traffic through a rate limiter between two ports. */
  datatype SwitchConfig = SwitchConfig(corsaUrl: string, bwIn: int, bwOut: int)

  /** Match a port and VLAN, retag, forward. */
  function Steer(cookie: int, table: int, inPort: int, vlan: int, newVlan: int, outPort: int): Flow {
    MatchAction(cookie, table, PortVlan(inPort, vlan), [SetField(newVlan), Forward(outPort)], PRIORITY_MATCH_ACTION)
  }

  /** If every tunnel flow that matches says to retag and forward, that is what happens. */
  lemma SteerProcess(flows: seq<Flow>, f: Frame, own: Flow, vlan: int, port: int)
    requires own in flows && Hits(own, L2TUNNEL_TABLE, f) && own.priority == PRIORITY_MATCH_ACTION && f.tags != []
    requires own.instructions == Instructions([SetField(vlan), Forward(port)], L2TUNNEL_TABLE)
    requires forall x :: x in flows && Hits(x, L2TUNNEL_TABLE, f) && x.priority >= PRIORITY_MATCH_ACTION ==>
               x.instructions == Instructions([SetField(vlan), Forward(port)], L2TUNNEL_TABLE)
    ensures Process(flows, L2TUNNEL_TABLE, f) == if port != f.inPort then [Out(port, [vlan] + f.tags[1..])] else []
  {
    BestSays(flows, L2TUNNEL_TABLE, f, PRIORITY_MATCH_ACTION, own.instructions);
    SteerOut(flows, f, vlan, port);
  }

  lemma SteerOut(flows: seq<Flow>, f: Frame, vlan: int, port: int)
    requires Best(flows, L2TUNNEL_TABLE, f).Some? && f.tags != []
    requires Best(flows, L2TUNNEL_TABLE, f).value.instructions
             == Instructions([SetField(vlan), Forward(port)], L2TUNNEL_TABLE)
    ensures Process(flows, L2TUNNEL_TABLE, f) == if port != f.inPort then [Out(port, [vlan] + f.tags[1..])] else []
  {
    SteerMeans(vlan, port);
    var wire, tags := [SetVlan(vlan), Output(port)], [vlan] + f.tags[1..];
    assert wire[1..] == [Output(port)] && [Output(port)][1..] == [];
    assert Emitted(f.inPort, tags, [Output(port)]) == if port != f.inPort then [Out(port, tags)] else [];
    assert Retag(f.tags, wire[0]) == tags;
  }

  lemma SteerMeans(vlan: int, port: int)
    ensures Applied(Instructions([SetField(vlan), Forward(port)], L2TUNNEL_TABLE)) == [SetVlan(vlan), Output(port)]
    ensures NextTable(Instructions([SetField(vlan), Forward(port)], L2TUNNEL_TABLE)) == None
  {
    var actions := [SetField(vlan), Forward(port)];
    InstructionsMean(actions, L2TUNNEL_TABLE);
    assert actions[..1] == [SetField(vlan)] && actions[..1][..0] == [];
    assert WireActions(actions[..1]) == [SetVlan(vlan)];
    assert actions[1..] == [Forward(port)] && actions[1..][1..] == [];
    assert FirstJump([Forward(port)], L2TUNNEL_TABLE) == None;
  }

  predicate Plain(config: SwitchConfig, r: VlanRule) {
    config.corsaUrl == "" || r.bandwidth == Some(0)
  }

  function PlainFlows(cookie: int, table: int, r: VlanRule): seq<Flow> {
    [Steer(cookie, table, r.inPort, r.vlanIn, r.vlanOut, r.outPort)] +
    if r.bidirectional then [Steer(cookie, table, r.outPort, r.vlanOut, r.vlanIn, r.inPort)] else []
  }

  function CorsaFlows(cookie: int, table: int, config: SwitchConfig, r: VlanRule): seq<Flow> {
    [Steer(cookie, table, r.inPort, r.vlanIn, r.vlanOut, config.bwIn),
     Steer(cookie, table, config.bwOut, r.vlanOut, r.vlanOut, r.outPort)] +
    if r.bidirectional then
      [Steer(cookie, table, config.bwIn, r.vlanOut, r.vlanIn, r.inPort),
       Steer(cookie, table, r.outPort, r.vlanOut, r.vlanOut, config.bwOut)]
    else []
  }

  function VlanFlows(cookie: int, table: int, config: SwitchConfig, r: VlanRule): seq<Flow> {
    if Plain(config, r) then PlainFlows(cookie, table, r) else CorsaFlows(cookie, table, config, r)
  }

  method TranslateVlanRule(cookie: int, table: int, config: SwitchConfig, r: VlanRule) returns (results: seq<Flow>)
    ensures results == VlanFlows(cookie, table, config, r)
  {
    var more;
    if config.corsaUrl == "" || r.bandwidth == Some(0) {
      results := TranslateMatchAction(cookie, table, PortVlan(r.inPort, r.vlanIn),
                                      [SetField(r.vlanOut), Forward(r.outPort)], PRIORITY_MATCH_ACTION);
      if r.bidirectional {
        more := TranslateMatchAction(cookie, table, PortVlan(r.outPort, r.vlanOut),
                                     [SetField(r.vlanIn), Forward(r.inPort)], PRIORITY_MATCH_ACTION);
        results := results + more;
      }
    } else {
      results := TranslateMatchAction(cookie, table, PortVlan(r.inPort, r.vlanIn),
                                      [SetField(r.vlanOut), Forward(config.bwIn)], PRIORITY_MATCH_ACTION);
      more := TranslateMatchAction(cookie, table, PortVlan(config.bwOut, r.vlanOut),
                                   [SetField(r.vlanOut), Forward(r.outPort)], PRIORITY_MATCH_ACTION);
      results := results + more;
      if r.bidirectional {
        more := TranslateMatchAction(cookie, table, PortVlan(config.bwIn, r.vlanOut),
                                     [SetField(r.vlanIn), Forward(r.inPort)], PRIORITY_MATCH_ACTION);
        results := results + more;
        more := TranslateMatchAction(cookie, table, PortVlan(r.outPort, r.vlanOut),
                                     [SetField(r.vlanOut), Forward(config.bwOut)], PRIORITY_MATCH_ACTION);
        results := results + more;
      }
    }
  }

  /** A rule for one direction listens at its in port, and behind the limiter if there is one; nothing hears its
      frames on the way back. */
  lemma OneWay(cookie: int, table: int, config: SwitchConfig, r: VlanRule)
    ensures |VlanFlows(cookie, table, config, r)|
         == (if config.corsaUrl == "" || r.bandwidth == Some(0) then 1 else 2) * if r.bidirectional then 2 else 1
    ensures !r.bidirectional ==> forall x :: x in VlanFlows(cookie, table, config, r) ==>
              x.on == PortVlan(r.inPort, r.vlanIn) || (!Plain(config, r) && x.on == PortVlan(config.bwOut, r.vlanOut))
  {
  }

  // ----- Multipoint rules -----

  /** Out of every other port of the list, in order. */
  function Others(ports: seq<int>, port: int): seq<LcAction> {
    if ports == [] then [] else
      Others(ports[..|ports| - 1], port) + if ports[|ports| - 1] != port then [Forward(ports[|ports| - 1])] else []
  }

  /** To every endpoint on another port, on the endpoint's own VLAN. */
  function ToEndpoints(endpoints: seq<(int, int)>, port: int): seq<LcAction> {
    if endpoints == [] then [] else
      var (outPort, vlan) := endpoints[|endpoints| - 1];
      ToEndpoints(endpoints[..|endpoints| - 1], port) + if outPort != port then [SetField(vlan), Forward(outPort)]
        else []
  }

  function FloodFlow(cookie: int, table: int, port: int, vlan: int, dst: Option<int>, actions: seq<LcAction>,
                     priority: int): Flow {
    MatchAction(cookie, table, Match(Some(port), Some(vlan), dst), actions, priority)
  }

  method TranslateFloodRule(cookie: int, table: int, ports: seq<int>, vlan: int) returns (results: seq<Flow>)
    ensures |results| == |ports|
    ensures forall i :: 0 <= i < |ports| ==>
      results[i] == FloodFlow(cookie, table, ports[i], vlan, None, Others(ports, ports[i]),
                              PRIORITY_L2M_FLOOD_FORWARDING)
  {
    results := [];
    for i := 0 to |ports|
      invariant results == FloodOnes(cookie, table, ports, ports[..i], vlan)
    {
      assert ports[..i + 1][..i] == ports[..i];
      var flow := FloodOne(cookie, table, ports, ports[i], vlan);
      results := results + [flow];
    }
    assert ports[..|ports|] == ports;
    FloodOnesAre(cookie, table, ports, ports, vlan);
  }

  /** The flows for some of the ports, in order. */
  function FloodOnes(cookie: int, table: int, ports: seq<int>, some: seq<int>, vlan: int): seq<Flow> {
    if some == [] then [] else
      var port := some[|some| - 1];
      FloodOnes(cookie, table, ports, some[..|some| - 1], vlan)
      + [FloodFlow(cookie, table, port, vlan, None, Others(ports, port), PRIORITY_L2M_FLOOD_FORWARDING)]
  }

  lemma {:induction false} FloodOnesAre(cookie: int, table: int, ports: seq<int>, some: seq<int>, vlan: int)
    ensures |FloodOnes(cookie, table, ports, some, vlan)| == |some|
    ensures forall i :: 0 <= i < |some| ==>
      FloodOnes(cookie, table, ports, some, vlan)[i]
      == FloodFlow(cookie, table, some[i], vlan, None, Others(ports, some[i]), PRIORITY_L2M_FLOOD_FORWARDING)
    decreases |some|
  {
    if some != [] { FloodOnesAre(cookie, table, ports, some[..|some| - 1], vlan); }
  }

  method FloodOne(cookie: int, table: int, ports: seq<int>, port: int, vlan: int) returns (flow: Flow)
    ensures flow == FloodFlow(cookie, table, port, vlan, None, Others(ports, port), PRIORITY_L2M_FLOOD_FORWARDING)
  {
    var actions := OtherPorts(ports, port);
    var more := TranslateMatchAction(cookie, table, PortVlan(port, vlan), actions, PRIORITY_L2M_FLOOD_FORWARDING);
    flow := more[0];
  }

  method OtherPorts(ports: seq<int>, port: int) returns (actions: seq<LcAction>)
    ensures actions == Others(ports, port)
  {
    actions := [];
    for j := 0 to |ports|
      invariant actions == Others(ports[..j], port)
    {
      assert ports[..j + 1][..j] == ports[..j];
      if ports[j] != port {
        actions := actions + [Forward(ports[j])];
      }
    }
    assert ports[..|ports|] == ports;
  }

  function EndpointPorts(endpoints: seq<(int, int)>): (r: seq<int>)
    ensures |r| == |endpoints| && forall i :: 0 <= i < |r| ==> r[i] == endpoints[i].0
  {
    seq(|endpoints|, i requires 0 <= i < |endpoints| => endpoints[i].0)
  }

  /** What an endpoint switch does with a flooded frame that came in on a port. */
  function FloodActions(flooding: seq<int>, endpoints: seq<(int, int)>, port: int): seq<LcAction> {
    Others(flooding, port) + ToEndpoints(endpoints, port)
  }

  function Ingress(cookie: int, port: int, vlan: int, iv: int): Flow {
    MatchAction(cookie, L2TUNNEL_TABLE, PortVlan(port, vlan), [SetField(iv), Continue], PRIORITY_L2MULTIPOINT)
  }

  function Learning(cookie: int, port: int, iv: int): Flow {
    MatchAction(cookie, LEARNING_TABLE, PortVlan(port, iv), [Continue, Forward(OFPP_CONTROLLER)],
                PRIORITY_L2MULTIPOINT_LEARNING)
  }

  function Flooding(cookie: int, port: int, iv: int, actions: seq<LcAction>): Flow {
    FloodFlow(cookie, FORWARDING_TABLE, port, iv, None, actions, PRIORITY_L2M_FLOOD_FORWARDING)
  }

  function Broadcasting(cookie: int, port: int, iv: int, actions: seq<LcAction>): Flow {
    FloodFlow(cookie, FORWARDING_TABLE, port, iv, Some(BROADCAST), actions, PRIORITY_L2M_BROADCAST_FORWARDING)
  }

  /** The i-th endpoint's flows. */
  predicate IngressPair(results: seq<Flow>, cookie: int, endpoints: seq<(int, int)>, iv: int, i: int) {
    && 0 <= i < |endpoints| && 2 * i + 1 < |results|
    && results[2 * i] == Ingress(cookie, endpoints[i].0, endpoints[i].1, iv)
    && results[2 * i + 1] == Learning(cookie, endpoints[i].0, iv)
  }

  /** The i-th port's flows, where the ports' flows begin at `start`. */
  predicate ForwardingPair(results: seq<Flow>, start: nat, cookie: int, flooding: seq<int>, endpoints: seq<(int, int)>,
                           iv: int, i: int) {
    var ports := flooding + EndpointPorts(endpoints);
    && 0 <= i < |ports| && start + 2 * i + 1 < |results|
    && results[start + 2 * i] == Flooding(cookie, ports[i], iv, FloodActions(flooding, endpoints, ports[i]))
    && results[start + 2 * i + 1] == Broadcasting(cookie, ports[i], iv, FloodActions(flooding, endpoints, ports[i]))
  }

  /** Two flows per endpoint, then two per port, in the order they are produced. */
  predicate EndpointFlows(results: seq<Flow>, cookie: int, flooding: seq<int>, endpoints: seq<(int, int)>, iv: int) {
    var n, m := |endpoints|, |flooding| + |endpoints|;
    && |results| == 2 * n + 2 * m
    && (forall i {:trigger IngressPair(results, cookie, endpoints, iv, i)} :: 0 <= i < n ==>
          IngressPair(results, cookie, endpoints, iv, i))
    && (forall i {:trigger ForwardingPair(results, 2 * n, cookie, flooding, endpoints, iv, i)} :: 0 <= i < m ==>
          ForwardingPair(results, 2 * n, cookie, flooding, endpoints, iv, i))
  }

  method TranslateEndpointRule(cookie: int, flooding: seq<int>, endpoints: seq<(int, int)>,
                               iv: int) returns (results: seq<Flow>)
    ensures EndpointFlows(results, cookie, flooding, endpoints, iv)
  {
    var first := TranslateIngress(cookie, endpoints, iv);
    var second := TranslateForwarding(cookie, flooding, endpoints, iv);
    ForwardingPairs(cookie, flooding, endpoints, iv, second);
    results := first + second;
    forall i | 0 <= i < |endpoints| ensures IngressPair(results, cookie, endpoints, iv, i) {
      assert IngressPair(first, cookie, endpoints, iv, i);
    }
    forall i | 0 <= i < |flooding| + |endpoints|
      ensures ForwardingPair(results, |first|, cookie, flooding, endpoints, iv, i)
    {
      assert ForwardingPair(second, 0, cookie, flooding, endpoints, iv, i);
    }
  }

  /** The first loop: what each endpoint's own frames go through. */
  method TranslateIngress(cookie: int, endpoints: seq<(int, int)>, iv: int) returns (results: seq<Flow>)
    ensures |results| == 2 * |endpoints|
    ensures forall i {:trigger IngressPair(results, cookie, endpoints, iv, i)} :: 0 <= i < |endpoints| ==>
              IngressPair(results, cookie, endpoints, iv, i)
  {
    results := [];
    for i := 0 to |endpoints|
      invariant |results| == 2 * i
      invariant forall k {:trigger IngressPair(results, cookie, endpoints, iv, k)} :: 0 <= k < i ==>
                  IngressPair(results, cookie, endpoints, iv, k)
    {
      ghost var before := results;
      var (port, vlan) := endpoints[i];
      var more := TranslateMatchAction(cookie, L2TUNNEL_TABLE, PortVlan(port, vlan), [SetField(iv), Continue],
                                       PRIORITY_L2MULTIPOINT);
      results := results + more;
      more := TranslateMatchAction(cookie, LEARNING_TABLE, PortVlan(port, iv), [Continue, Forward(OFPP_CONTROLLER)],
                                   PRIORITY_L2MULTIPOINT_LEARNING);
      results := results + more;
      forall k | 0 <= k < i ensures IngressPair(results, cookie, endpoints, iv, k) {
        assert IngressPair(before, cookie, endpoints, iv, k);
      }
      assert IngressPair(results, cookie, endpoints, iv, i);
    }
  }

  /** The second loop: where a frame from each port is flooded to. */
  method TranslateForwarding(cookie: int, flooding: seq<int>, endpoints: seq<(int, int)>,
                             iv: int) returns (results: seq<Flow>)
    ensures results == Stack([], PortPair(cookie, flooding, endpoints, iv), flooding + EndpointPorts(endpoints))
  {
    var ports := flooding + EndpointPorts(endpoints);
    ghost var pair := PortPair(cookie, flooding, endpoints, iv);
    results := [];
    for i := 0 to |ports|
      invariant results == Stack([], pair, ports[..i])
    {
      StackStep(pair, ports, i);
      var more := TranslatePort(cookie, flooding, endpoints, iv, ports[i]);
      results := results + more;
    }
    assert ports[..|ports|] == ports;
  }

  /** What the second loop makes for a port. */
  function PortPair(cookie: int, flooding: seq<int>, endpoints: seq<(int, int)>, iv: int): int -> seq<Flow> {
    port => [Flooding(cookie, port, iv, FloodActions(flooding, endpoints, port)),
             Broadcasting(cookie, port, iv, FloodActions(flooding, endpoints, port))]
  }

  lemma StackStep<T>(own: T -> seq<Flow>, owners: seq<T>, i: nat)
    requires i < |owners|
    ensures Stack([], own, owners[..i + 1]) == Stack([], own, owners[..i]) + own(owners[i])
  {
    assert owners[..i + 1][..i] == owners[..i];
  }

  lemma {:induction false} StackCount<T>(own: T -> seq<Flow>, owners: seq<T>)
    requires forall t :: t in owners ==> |own(t)| == 2
    ensures |Stack([], own, owners)| == 2 * |owners|
    decreases |owners|
  {
    if owners != [] { StackCount(own, owners[..|owners| - 1]); }
  }

  /** Of lists of two flows put one after the other, the i-th is found at 2i. */
  lemma {:induction false} StackAt<T>(own: T -> seq<Flow>, owners: seq<T>, i: nat)
    requires i < |owners| && forall t :: t in owners ==> |own(t)| == 2
    ensures var all := Stack([], own, owners);
            |all| == 2 * |owners| && all[2 * i] == own(owners[i])[0] && all[2 * i + 1] == own(owners[i])[1]
    decreases |owners|
  {
    var front := owners[..|owners| - 1];
    StackCount(own, front);
    if i < |front| { StackAt(own, front, i); }
  }

  lemma ForwardingPairs(cookie: int, flooding: seq<int>, endpoints: seq<(int, int)>, iv: int, results: seq<Flow>)
    requires results == Stack([], PortPair(cookie, flooding, endpoints, iv), flooding + EndpointPorts(endpoints))
    ensures |results| == 2 * (|flooding| + |endpoints|)
    ensures forall i {:trigger ForwardingPair(results, 0, cookie, flooding, endpoints, iv, i)} ::
              0 <= i < |flooding| + |endpoints| ==> ForwardingPair(results, 0, cookie, flooding, endpoints, iv, i)
  {
    StackCount(PortPair(cookie, flooding, endpoints, iv), flooding + EndpointPorts(endpoints));
    forall i | 0 <= i < |flooding| + |endpoints|
      ensures ForwardingPair(results, 0, cookie, flooding, endpoints, iv, i)
    {
      ForwardingAt(cookie, flooding, endpoints, iv, i);
    }
  }

  lemma ForwardingAt(cookie: int, flooding: seq<int>, endpoints: seq<(int, int)>, iv: int, i: nat)
    requires i < |flooding| + |endpoints|
    ensures ForwardingPair(Stack([], PortPair(cookie, flooding, endpoints, iv), flooding + EndpointPorts(endpoints)), 0,
                           cookie, flooding, endpoints, iv, i)
  {
    StackAt(PortPair(cookie, flooding, endpoints, iv), flooding + EndpointPorts(endpoints), i);
  }

  method TranslatePort(cookie: int, flooding: seq<int>, endpoints: seq<(int, int)>, iv: int,
                       port: int) returns (results: seq<Flow>)
    ensures results == PortPair(cookie, flooding, endpoints, iv)(port)
  {
    var actions := OtherPorts(flooding, port);
    var rest := OtherEndpoints(endpoints, port);
    actions := actions + rest;
    results := TranslateMatchAction(cookie, FORWARDING_TABLE, PortVlan(port, iv), actions,
                                    PRIORITY_L2M_FLOOD_FORWARDING);
    var more := TranslateMatchAction(cookie, FORWARDING_TABLE, Match(Some(port), Some(iv), Some(BROADCAST)), actions,
                                     PRIORITY_L2M_BROADCAST_FORWARDING);
    results := results + more;
  }

  method OtherEndpoints(endpoints: seq<(int, int)>, port: int) returns (actions: seq<LcAction>)
    ensures actions == ToEndpoints(endpoints, port)
  {
    actions := [];
    for j := 0 to |endpoints|
      invariant actions == ToEndpoints(endpoints[..j], port)
    {
      assert endpoints[..j + 1][..j] == endpoints[..j];
      var (outPort, vlan) := endpoints[j];
      if outPort != port {
        actions := actions + [SetField(vlan), Forward(outPort)];
      }
    }
    assert endpoints[..|endpoints|] == endpoints;
  }

  // ----- Rules that belong to no tunnel and no multipoint LAN -----

  /** An edge port shows its frames to the controller, so that it learns where addresses are. */
  function EdgePortFlow(cookie: int, port: int): Flow {
    MatchAction(cookie, LEARNING_TABLE, Match(Some(port), None, None), [Continue, Forward(OFPP_CONTROLLER)],
                PRIORITY_GENERIC_LEARNING)
  }

  method TranslateEdgePortRule(cookie: int, port: int) returns (results: seq<Flow>)
    ensures results == [EdgePortFlow(cookie, port)]
  {
    results := TranslateMatchAction(cookie, LEARNING_TABLE, Match(Some(port), None, None),
                                    [Continue, Forward(OFPP_CONTROLLER)], PRIORITY_GENERIC_LEARNING);
  }

  function LearnedFlow(cookie: int, address: int, outPort: int): Flow {
    MatchAction(cookie, FORWARDING_TABLE, Match(None, None, Some(address)), [Forward(outPort)],
                PRIORITY_GENERIC_LEARNED)
  }

  method TranslateLearnedRule(cookie: int, address: int, outPort: int) returns (results: seq<Flow>)
    ensures results == [LearnedFlow(cookie, address, outPort)]
  {
    results := TranslateMatchAction(cookie, FORWARDING_TABLE, Match(None, None, Some(address)), [Forward(outPort)],
                                    PRIORITY_GENERIC_LEARNED);
  }

  function FloodTreeFlow(cookie: int, ports: seq<int>, port: int): Flow {
    MatchAction(cookie, FORWARDING_TABLE, Match(Some(port), None, Some(BROADCAST)), Others(ports, port),
                PRIORITY_FLOOD_FORWARDING)
  }

  /** The flows for some of the ports, in order. */
  function FloodTreeFlows(cookie: int, ports: seq<int>, some: seq<int>): seq<Flow> {
    if some == [] then [] else
      FloodTreeFlows(cookie, ports, some[..|some| - 1]) + [FloodTreeFlow(cookie, ports, some[|some| - 1])]
  }

  method TranslateFloodTreeRule(cookie: int, ports: seq<int>) returns (results: seq<Flow>)
    ensures results == FloodTreeFlows(cookie, ports, ports)
  {
    results := [];
    for i := 0 to |ports|
      invariant results == FloodTreeFlows(cookie, ports, ports[..i])
    {
      assert ports[..i + 1][..i] == ports[..i];
      var flow := TreeFlow(cookie, ports, ports[i]);
      results := results + [flow];
    }
    assert ports[..|ports|] == ports;
  }

  lemma {:induction false} FloodTreeFlowsAre(cookie: int, ports: seq<int>, some: seq<int>)
    ensures |FloodTreeFlows(cookie, ports, some)| == |some|
    ensures forall i :: 0 <= i < |some| ==>
            FloodTreeFlows(cookie, ports, some)[i] == FloodTreeFlow(cookie, ports, some[i])
    decreases |some|
  {
    if some != [] { FloodTreeFlowsAre(cookie, ports, some[..|some| - 1]); }
  }

  method TreeFlow(cookie: int, ports: seq<int>, port: int) returns (flow: Flow)
    ensures flow == FloodTreeFlow(cookie, ports, port)
  {
    var actions := OtherPorts(ports, port);
    var more := TranslateMatchAction(cookie, FORWARDING_TABLE, Match(Some(port), None, Some(BROADCAST)), actions,
                                     PRIORITY_FLOOD_FORWARDING);
    flow := more[0];
  }

  /** Every flow carries the cookie of its rule, by which it is found again. */
  lemma RuleCookies(cookie: int, table: int, config: SwitchConfig, r: VlanRule, ports: seq<int>, port: int,
                    address: int, i: nat)
    ensures forall x :: x in VlanFlows(cookie, table, config, r) ==> x.cookie == cookie
    ensures EdgePortFlow(cookie, port).cookie == LearnedFlow(cookie, address, port).cookie == cookie
    ensures i < |ports| ==>
      i < |FloodTreeFlows(cookie, ports, ports)| && FloodTreeFlows(cookie, ports, ports)[i].cookie == cookie
  {
    FloodTreeFlowsAre(cookie, ports, ports);
  }

  // ----- What every switch starts with -----

  /** The rules a switch gets when it connects: every table but the last passes frames on, the last
      drops them. */
  function Bootstrap(cookie: int): seq<Flow> {
    [Default(cookie, 0), Default(cookie, 1), Default(cookie, 2), Default(cookie, 3), Default(cookie, LAST_TABLE)]
  }

  function Default(cookie: int, table: int): Flow {
    MatchAction(cookie, table, Match(None, None, None), if table < LAST_TABLE then [Continue] else [Drop],
                PRIORITY_DEFAULT)
  }

  lemma DefaultMeans(cookie: int, table: int)
    ensures Applied(Default(cookie, table).instructions) == []
    ensures NextTable(Default(cookie, table).instructions) == if table < LAST_TABLE then Some(table + 1) else None
  {
    var action := if table < LAST_TABLE then Continue else Drop;
    InstructionsMean([action], table);
    assert [action][..0] == [] && [action][1..] == [];
    assert WireActions([action]) == [];
  }

  lemma InBootstrap(x: Flow)
    ensures x in Bootstrap(-1) <==> 0 <= x.table <= LAST_TABLE && x == Default(-1, x.table)
  {
    if 0 <= x.table <= LAST_TABLE && x == Default(-1, x.table) { assert Bootstrap(-1)[x.table] == x; }
  }

  predicate HasDefaults(flows: seq<Flow>) {
    forall x :: x in Bootstrap(-1) ==> x in flows
  }

  /** From this table on, only the starting rules match the frame. */
  predicate OnlyDefaults(flows: seq<Flow>, table: int, f: Frame) {
    forall x :: x in flows && x.table >= table && Matches(x.on, f) ==> x in Bootstrap(-1)
  }

  /** In this table, only the starting rule hears the frame. */
  predicate Unheard(flows: seq<Flow>, table: int, f: Frame) {
    forall x :: x in flows && Hits(x, table, f) ==> x in Bootstrap(-1)
  }

  /** A table in which only its starting rule matches passes the frame on, the last one drops it. */
  lemma DefaultBest(flows: seq<Flow>, table: nat, f: Frame)
    requires table <= LAST_TABLE && HasDefaults(flows) && Unheard(flows, table, f)
    ensures Best(flows, table, f).Some?
    ensures Applied(Best(flows, table, f).value.instructions) == []
    ensures NextTable(Best(flows, table, f).value.instructions) == if table < LAST_TABLE then Some(table + 1) else None
  {
    var own := Default(-1, table);
    InBootstrap(own);
    forall x | x in flows && Hits(x, table, f) ensures x.instructions == own.instructions { InBootstrap(x); }
    BestSays(flows, table, f, PRIORITY_DEFAULT, own.instructions);
    DefaultMeans(-1, table);
  }

  lemma DefaultStep(flows: seq<Flow>, table: nat, f: Frame)
    requires table <= LAST_TABLE && HasDefaults(flows) && Unheard(flows, table, f)
    ensures Process(flows, table, f) == if table < LAST_TABLE then Process(flows, table + 1, f) else []
  {
    DefaultBest(flows, table, f);
    SilentProcess(flows, table, f);
    assert f.(tags := f.tags) == f;
  }

  /** A frame that only the starting rules match is dropped. */
  lemma {:induction false} DefaultsDrop(flows: seq<Flow>, table: nat, f: Frame)
    requires table <= LAST_TABLE && HasDefaults(flows) && OnlyDefaults(flows, table, f)
    ensures Process(flows, table, f) == []
    decreases LAST_TABLE - table
  {
    DefaultStep(flows, table, f);
    if table < LAST_TABLE {
      DefaultsDrop(flows, table + 1, f);
    }
  }
}
