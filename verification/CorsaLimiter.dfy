/** Reserved bandwidth on Corsa switches: traffic is sent through a rate limiter that sits between two
    extra ports. Seen from outside, the switch forwards as if there were no limiter, provided that no
    tunnel turns around on one port and no two tunnels share the VLAN they use inside the limiter. */
module CorsaLimiter {
  import opened Basics
  import opened OpenFlow
  import opened RyuTranslate

  datatype Order = Order(cookie: int, rule: VlanRule)

  function OrderFlows(config: SwitchConfig): Order -> seq<Flow> {
    (o: Order) => VlanFlows(o.cookie, L2TUNNEL_TABLE, config, o.rule)
  }

  /** The flows of a switch that was given these tunnel rules, on top of whatever else it carries. */
  function TableOf(base: seq<Flow>, config: SwitchConfig, orders: seq<Order>): seq<Flow> {
    Stack(base, OrderFlows(config), orders)
  }

  predicate IsBw(config: SwitchConfig, port: int) {
    port == config.bwIn || port == config.bwOut
  }

  /** The limiter passes frames unchanged from one of its ports to the other. */
  function Behind(config: SwitchConfig, port: int): int {
    if port == config.bwIn then config.bwOut else config.bwIn
  }

  /** What a switch and its limiter send out together, when a frame passes the limiter at most `fuel` times. */
  function Through(flows: seq<Flow>, config: SwitchConfig, f: Frame, fuel: nat): seq<Out>
    decreases fuel, 1, 0
  {
    Limited(flows, config, Process(flows, L2TUNNEL_TABLE, f), f.dst, fuel)
  }

  function Limited(flows: seq<Flow>, config: SwitchConfig, outs: seq<Out>, dst: int, fuel: nat): seq<Out>
    decreases fuel, 0, |outs|
  {
    if outs == [] then [] else
      (if !IsBw(config, outs[0].port) then [outs[0]]
       else if fuel == 0 then []
       else Through(flows, config, Frame(Behind(config, outs[0].port), outs[0].tags, dst), fuel - 1))
      + Limited(flows, config, outs[1..], dst, fuel)
  }

  lemma LimitedOne(flows: seq<Flow>, config: SwitchConfig, out: Out, dst: int, fuel: nat)
    ensures Limited(flows, config, [out], dst, fuel)
         == if !IsBw(config, out.port) then [out] else if fuel == 0 then []
            else Through(flows, config, Frame(Behind(config, out.port), out.tags, dst), fuel - 1)
  {
    assert [out][1..] == [];
  }

  /** Once into the limiter, once out of it, and away. */
  lemma OncePast(flows: seq<Flow>, config: SwitchConfig, f: Frame, mid: Out, last: Out, fuel: nat)
    requires fuel >= 1 && IsBw(config, mid.port) && !IsBw(config, last.port)
    requires Process(flows, L2TUNNEL_TABLE, f) == [mid]
    requires Process(flows, L2TUNNEL_TABLE, Frame(Behind(config, mid.port), mid.tags, f.dst)) == [last]
    ensures Through(flows, config, f, fuel) == [last]
  {
    var g := Frame(Behind(config, mid.port), mid.tags, f.dst);
    LimitedOne(flows, config, last, f.dst, fuel - 1);
    assert Through(flows, config, g, fuel - 1) == [last];
    LimitedOne(flows, config, mid, f.dst, fuel);
  }

  // ----- Sides of a rule -----

  datatype Spot = Spot(port: int, vlan: int)

  /** Where a rule listens: on its input side, or on its output side. */
  function Side(r: VlanRule, output: bool): Spot {
    if output then Spot(r.outPort, r.vlanOut) else Spot(r.inPort, r.vlanIn)
  }

  predicate At(f: Frame, s: Spot) {
    f.inPort == s.port && f.tags != [] && f.tags[0] == s.vlan
  }

  predicate AtSide(orders: seq<Order>, i: int, output: bool, f: Frame) {
    0 <= i < |orders| && At(f, Side(orders[i].rule, output))
  }

  /** No two sides listen in the same place; every rule works in both directions, as tunnels ask for. */
  ghost predicate SidesApart(orders: seq<Order>) {
    && (forall i :: 0 <= i < |orders| ==> orders[i].rule.bidirectional)
    && forall i, a, j, b ::
         0 <= i < |orders| && 0 <= j < |orders| && Side(orders[i].rule, a) == Side(orders[j].rule, b) ==>
           i == j && a == b
  }

  predicate ClearOfLimiter(config: SwitchConfig, orders: seq<Order>) {
    && config.bwIn != config.bwOut
    && forall i :: 0 <= i < |orders| ==> !IsBw(config, orders[i].rule.inPort) && !IsBw(config, orders[i].rule.outPort)
  }

  predicate IsLimited(config: SwitchConfig, o: Order) {
    !Plain(config, o.rule)
  }

  /** A frame that the rules are about: it arrives at a side of one, or it comes back from the limiter. */
  ghost predicate Concerned(config: SwitchConfig, orders: seq<Order>, f: Frame) {
    || (exists i, output :: AtSide(orders, i, output, f))
    || (IsBw(config, f.inPort) && f.tags != [] && exists i :: Limits(config, orders, i, f.tags[0]))
  }

  /** The other flows of the switch leave the rules' frames to the rules, and nothing to the limiter. */
  ghost predicate Yields(base: seq<Flow>, config: SwitchConfig, orders: seq<Order>) {
    && (forall x, f :: x in base && Hits(x, L2TUNNEL_TABLE, f) && x.priority >= PRIORITY_MATCH_ACTION ==>
          !Concerned(config, orders, f))
    && forall x :: x in base ==> Avoids(config, x)
  }

  predicate Avoids(config: SwitchConfig, x: Flow) {
    forall a :: a in Applied(x.instructions) && a.Output? ==> !IsBw(config, a.port)
  }

  predicate Outside(config: SwitchConfig, outs: seq<Out>) {
    forall o :: o in outs ==> !IsBw(config, o.port)
  }

  lemma {:induction false} EmittedOutside(config: SwitchConfig, inPort: int, tags: seq<int>, actions: seq<Action>)
    requires forall a :: a in actions && a.Output? ==> !IsBw(config, a.port)
    ensures Outside(config, Emitted(inPort, tags, actions))
    decreases |actions|
  {
    if actions != [] {
      assert actions[0] in actions;
      EmittedOutside(config, inPort, Retag(tags, actions[0]), actions[1..]);
    }
  }

  /** What such flows send out does not go to the limiter. */
  lemma {:induction false} ProcessOutside(config: SwitchConfig, flows: seq<Flow>, table: int, f: Frame)
    requires forall x :: x in flows ==> Avoids(config, x)
    ensures Outside(config, Process(flows, table, f))
    decreases LAST_TABLE - table
  {
    if Best(flows, table, f).Some? {
      BestAmong(flows, table, f);
      var says := Best(flows, table, f).value.instructions;
      assert Avoids(config, Best(flows, table, f).value);
      EmittedOutside(config, f.inPort, f.tags, Applied(says));
      if NextTable(says).Some? && table < NextTable(says).value <= LAST_TABLE {
        ProcessOutside(config, flows, NextTable(says).value, f.(tags := Tagged(f.tags, Applied(says))));
      }
    }
  }

  lemma {:induction false} LimitedOutside(flows: seq<Flow>, config: SwitchConfig, outs: seq<Out>, dst: int, fuel: nat)
    requires Outside(config, outs)
    ensures Limited(flows, config, outs, dst, fuel) == outs
    decreases |outs|
  {
    if outs != [] {
      assert outs[0] in outs;
      LimitedOutside(flows, config, outs[1..], dst, fuel);
    }
  }

  // ----- Which flows a frame meets -----

  lemma InTable(base: seq<Flow>, config: SwitchConfig, orders: seq<Order>, x: Flow)
    ensures x in TableOf(base, config, orders) <==>
            x in base || exists i :: 0 <= i < |orders| && x in OrderFlows(config)(orders[i])
  {
    InStack(base, OrderFlows(config), orders, x);
  }

  /** A frame that meets a flow of one order and no flow of another is retagged and forwarded by it. */
  lemma Steered(base: seq<Flow>, config: SwitchConfig, orders: seq<Order>, i: nat, f: Frame, s: Spot, m: Spot)
    requires Yields(base, config, orders) && Concerned(config, orders, f) && i < |orders| && At(f, s)
    requires Steer(orders[i].cookie, L2TUNNEL_TABLE, s.port, s.vlan, m.vlan, m.port) in OrderFlows(config)(orders[i])
    requires forall j, x :: 0 <= j < |orders| && x in OrderFlows(config)(orders[j]) && Hits(x, L2TUNNEL_TABLE, f) ==>
               x.instructions == Instructions([SetField(m.vlan), Forward(m.port)], L2TUNNEL_TABLE)
    ensures Process(TableOf(base, config, orders), L2TUNNEL_TABLE, f)
         == if m.port != f.inPort then [Out(m.port, [m.vlan] + f.tags[1..])] else []
  {
    var flows := TableOf(base, config, orders);
    var own := Steer(orders[i].cookie, L2TUNNEL_TABLE, s.port, s.vlan, m.vlan, m.port);
    InTable(base, config, orders, own);
    forall x | x in flows && Hits(x, L2TUNNEL_TABLE, f) && x.priority >= PRIORITY_MATCH_ACTION
      ensures x.instructions == Instructions([SetField(m.vlan), Forward(m.port)], L2TUNNEL_TABLE)
    {
      InTable(base, config, orders, x);
    }
    SteerProcess(flows, f, own, m.vlan, m.port);
  }

  /** A frame that meets no flow of any order is left to the other flows. */
  lemma Unmatched(base: seq<Flow>, config: SwitchConfig, orders: seq<Order>, f: Frame)
    requires forall j, x :: 0 <= j < |orders| && x in OrderFlows(config)(orders[j]) ==> !Matches(x.on, f)
    ensures Process(TableOf(base, config, orders), L2TUNNEL_TABLE, f) == Process(base, L2TUNNEL_TABLE, f)
  {
    BestBase(base, OrderFlows(config), orders, L2TUNNEL_TABLE, f);
    if Best(base, L2TUNNEL_TABLE, f).Some? {
      var says := Best(base, L2TUNNEL_TABLE, f).value.instructions;
      if NextTable(says).Some? && L2TUNNEL_TABLE < NextTable(says).value <= LAST_TABLE {
        LaterTables(base, config, orders, NextTable(says).value, f.(tags := Tagged(f.tags, Applied(says))));
      }
    }
  }

  /** So is every frame in the later tables, where orders have no flows. */
  lemma {:induction false} LaterTables(base: seq<Flow>, config: SwitchConfig, orders: seq<Order>, table: int, f: Frame)
    requires table > L2TUNNEL_TABLE
    ensures Process(TableOf(base, config, orders), table, f) == Process(base, table, f)
    decreases LAST_TABLE - table
  {
    BestBase(base, OrderFlows(config), orders, table, f);
    if Best(base, table, f).Some? {
      var says := Best(base, table, f).value.instructions;
      if NextTable(says).Some? && table < NextTable(says).value <= LAST_TABLE {
        LaterTables(base, config, orders, NextTable(says).value, f.(tags := Tagged(f.tags, Applied(says))));
      }
    }
  }

  /** Where an order's rule sends a frame from one of its sides: to its other side or to the limiter. */
  function Target(config: SwitchConfig, o: Order, output: bool): Spot {
    if !IsLimited(config, o) then Side(o.rule, !output)
    else Spot(if output then config.bwOut else config.bwIn, o.rule.vlanOut)
  }

  /** The flow of an order that a frame from outside meets is the one of the side it is at. */
  lemma OutsideMeets(config: SwitchConfig, orders: seq<Order>, j: nat, x: Flow, f: Frame) returns (output: bool)
    requires j < |orders| && orders[j].rule.bidirectional && x in OrderFlows(config)(orders[j]) && Matches(x.on, f)
    requires !IsBw(config, f.inPort) || !IsLimited(config, orders[j])
    ensures AtSide(orders, j, output, f)
    ensures var m := Target(config, orders[j], output);
            x.instructions == Instructions([SetField(m.vlan), Forward(m.port)], L2TUNNEL_TABLE)
  {
    var o := orders[j];
    var flows := OrderFlows(config)(o);
    output := if IsLimited(config, o) then x == flows[3] else x == flows[1];
  }

  /** What the switch itself does with a frame at a side of a rule. */
  lemma AtSideProcess(base: seq<Flow>, config: SwitchConfig, orders: seq<Order>, i: nat, output: bool, f: Frame)
    requires Yields(base, config, orders) && SidesApart(orders) && AtSide(orders, i, output, f)
    requires !IsBw(config, f.inPort) || forall j :: 0 <= j < |orders| ==> !IsLimited(config, orders[j])
    ensures var m := Target(config, orders[i], output);
            Process(TableOf(base, config, orders), L2TUNNEL_TABLE, f)
              == if m.port != f.inPort then [Out(m.port, [m.vlan] + f.tags[1..])] else []
  {
    var m := Target(config, orders[i], output);
    forall j, x | 0 <= j < |orders| && x in OrderFlows(config)(orders[j]) && Hits(x, L2TUNNEL_TABLE, f)
      ensures x.instructions == Instructions([SetField(m.vlan), Forward(m.port)], L2TUNNEL_TABLE)
    {
      var b := OutsideMeets(config, orders, j, x, f);
      assert Side(orders[i].rule, output) == Side(orders[j].rule, b);
    }
    Steered(base, config, orders, i, f, Side(orders[i].rule, output), m);
  }

  lemma ElsewhereProcess(base: seq<Flow>, config: SwitchConfig, orders: seq<Order>, f: Frame)
    requires SidesApart(orders) && forall i, output :: !AtSide(orders, i, output, f)
    requires !IsBw(config, f.inPort) || forall j :: 0 <= j < |orders| ==> !IsLimited(config, orders[j])
    ensures Process(TableOf(base, config, orders), L2TUNNEL_TABLE, f) == Process(base, L2TUNNEL_TABLE, f)
  {
    forall j, x | 0 <= j < |orders| && x in OrderFlows(config)(orders[j]) ensures !Matches(x.on, f) {
      if Matches(x.on, f) {
        var b := OutsideMeets(config, orders, j, x, f);
        assert false;
      }
    }
    Unmatched(base, config, orders, f);
  }

  // ----- Coming back from the limiter -----

  /** The port behind which an order's frames come back, when they went in from a side. */
  function ReturnPort(config: SwitchConfig, output: bool): int {
    if output then config.bwIn else config.bwOut
  }

  lemma ReturnMeets(config: SwitchConfig, orders: seq<Order>, output: bool, j: nat, x: Flow, f: Frame)
    requires ClearOfLimiter(config, orders) && j < |orders| && x in OrderFlows(config)(orders[j])
    requires f.inPort == ReturnPort(config, output) && Matches(x.on, f)
    ensures IsLimited(config, orders[j]) && f.tags != [] && f.tags[0] == orders[j].rule.vlanOut
    ensures var m := Side(orders[j].rule, !output);
            x.instructions == Instructions([SetField(m.vlan), Forward(m.port)], L2TUNNEL_TABLE)
  {
  }

  predicate Limits(config: SwitchConfig, orders: seq<Order>, j: int, vlan: int) {
    0 <= j < |orders| && IsLimited(config, orders[j]) && orders[j].rule.vlanOut == vlan
  }

  /** The flow that a frame from the limiter meets is one of some order's. */
  lemma ReturnBest(base: seq<Flow>, config: SwitchConfig, orders: seq<Order>, i: nat, output: bool, f: Frame)
    returns (j: nat)
    requires Yields(base, config, orders) && SidesApart(orders)
    requires f.inPort == ReturnPort(config, output) && f.tags != []
             && Limits(config, orders, i, f.tags[0])
    ensures Best(TableOf(base, config, orders), L2TUNNEL_TABLE, f).Some?
    ensures j < |orders|
            && Best(TableOf(base, config, orders), L2TUNNEL_TABLE, f).value in OrderFlows(config)(orders[j])
    ensures Matches(Best(TableOf(base, config, orders), L2TUNNEL_TABLE, f).value.on, f)
  {
    var flows := TableOf(base, config, orders);
    var own := OrderFlows(config)(orders[i])[if output then 2 else 1];
    InTable(base, config, orders, own);
    assert Hits(own, L2TUNNEL_TABLE, f) && own.priority == PRIORITY_MATCH_ACTION;
    BestIs(flows, L2TUNNEL_TABLE, f, own);
    var best := Best(flows, L2TUNNEL_TABLE, f).value;
    InTable(base, config, orders, best);
    assert Concerned(config, orders, f);
    assert best !in base;
    j :| 0 <= j < |orders| && best in OrderFlows(config)(orders[j]);
  }

  /** Some order with the frame's VLAN sends it out of its far side. */
  lemma ReturnProcess(base: seq<Flow>, config: SwitchConfig, orders: seq<Order>, i: nat, output: bool, f: Frame)
    returns (j: nat)
    requires Yields(base, config, orders) && SidesApart(orders) && ClearOfLimiter(config, orders)
    requires f.inPort == ReturnPort(config, output) && f.tags != [] && Limits(config, orders, i, f.tags[0])
    ensures Limits(config, orders, j, f.tags[0])
    ensures var m := Side(orders[j].rule, !output);
            Process(TableOf(base, config, orders), L2TUNNEL_TABLE, f) == [Out(m.port, [m.vlan] + f.tags[1..])]
  {
    j := ReturnBest(base, config, orders, i, output, f);
    ReturnMeets(config, orders, output, j, Best(TableOf(base, config, orders), L2TUNNEL_TABLE, f).value, f);
    var m := Side(orders[j].rule, !output);
    SteerOut(TableOf(base, config, orders), f, m.vlan, m.port);
  }

  // ----- Refinement -----

  function Unlimited(config: SwitchConfig): SwitchConfig {
    config.(corsaUrl := "")
  }

  /** The same frames leave as on a switch without a limiter. */
  ghost predicate SameOutside(base: seq<Flow>, config: SwitchConfig, orders: seq<Order>, f: Frame, fuel: nat) {
    Through(TableOf(base, config, orders), config, f, fuel)
      == Process(TableOf(base, Unlimited(config), orders), L2TUNNEL_TABLE, f)
  }

  ghost predicate Refines(base: seq<Flow>, config: SwitchConfig, orders: seq<Order>, fuel: nat) {
    forall f: Frame {:trigger SameOutside(base, config, orders, f, fuel)} :: !IsBw(config, f.inPort) ==>
      SameOutside(base, config, orders, f, fuel)
  }

  /** A limited tunnel does not leave by the port it came in on. */
  predicate NoTurn(config: SwitchConfig, orders: seq<Order>) {
    forall i :: 0 <= i < |orders| && IsLimited(config, orders[i]) ==> orders[i].rule.inPort != orders[i].rule.outPort
  }

  /** Every limited tunnel has a VLAN of its own inside the limiter. */
  predicate OwnVlans(config: SwitchConfig, orders: seq<Order>) {
    forall i, j :: 0 <= i < j < |orders| && IsLimited(config, orders[i]) && IsLimited(config, orders[j]) ==>
      orders[i].rule.vlanOut != orders[j].rule.vlanOut
  }

  /** What comes out of the switch and the limiter for a frame at a side of a limited rule. */
  lemma LimitedThrough(base: seq<Flow>, config: SwitchConfig, orders: seq<Order>, i: nat, output: bool, f: Frame,
                       fuel: nat) returns (j: nat)
    requires Yields(base, config, orders) && SidesApart(orders) && ClearOfLimiter(config, orders) && fuel >= 1
    requires AtSide(orders, i, output, f) && IsLimited(config, orders[i])
    ensures Limits(config, orders, j, orders[i].rule.vlanOut)
    ensures var m := Side(orders[j].rule, !output);
            Through(TableOf(base, config, orders), config, f, fuel) == [Out(m.port, [m.vlan] + f.tags[1..])]
  {
    var flows, vlan := TableOf(base, config, orders), orders[i].rule.vlanOut;
    AtSideProcess(base, config, orders, i, output, f);
    var g := Frame(ReturnPort(config, output), [vlan] + f.tags[1..], f.dst);
    j := ReturnProcess(base, config, orders, i, output, g);
    assert g.tags[1..] == f.tags[1..];
    var m := Side(orders[j].rule, !output);
    OncePast(flows, config, f, Out(Behind(config, g.inPort), g.tags), Out(m.port, [m.vlan] + f.tags[1..]), fuel);
  }

  lemma PlainThrough(base: seq<Flow>, config: SwitchConfig, orders: seq<Order>, i: nat, output: bool, f: Frame,
                     fuel: nat)
    requires Yields(base, config, orders) && SidesApart(orders) && ClearOfLimiter(config, orders)
    requires AtSide(orders, i, output, f) && !IsLimited(config, orders[i])
    ensures SameOutside(base, config, orders, f, fuel)
  {
    AtSideProcess(base, config, orders, i, output, f);
    AtSideProcess(base, Unlimited(config), orders, i, output, f);
    var m := Side(orders[i].rule, !output);
    LimitedOne(TableOf(base, config, orders), config, Out(m.port, [m.vlan] + f.tags[1..]), f.dst, fuel);
  }

  lemma ElsewhereThrough(base: seq<Flow>, config: SwitchConfig, orders: seq<Order>, f: Frame, fuel: nat)
    requires Yields(base, config, orders) && SidesApart(orders)
    requires !IsBw(config, f.inPort) && forall i, output :: !AtSide(orders, i, output, f)
    ensures SameOutside(base, config, orders, f, fuel)
  {
    ProcessOutside(config, base, L2TUNNEL_TABLE, f);
    LimitedOutside(TableOf(base, config, orders), config, Process(base, L2TUNNEL_TABLE, f), f.dst, fuel);
    ElsewhereProcess(base, config, orders, f);
    ElsewhereProcess(base, Unlimited(config), orders, f);
  }

  lemma RefinesIf(base: seq<Flow>, config: SwitchConfig, orders: seq<Order>, f: Frame, fuel: nat)
    requires Yields(base, config, orders) && SidesApart(orders) && ClearOfLimiter(config, orders) && fuel >= 1
             && !IsBw(config, f.inPort)
    requires NoTurn(config, orders) && OwnVlans(config, orders)
    ensures SameOutside(base, config, orders, f, fuel)
  {
    if i, output :| AtSide(orders, i, output, f) {
      if IsLimited(config, orders[i]) {
        var j := LimitedThrough(base, config, orders, i, output, f, fuel);
        assert j == i;
        AtSideProcess(base, Unlimited(config), orders, i, output, f);
      } else {
        PlainThrough(base, config, orders, i, output, f, fuel);
      }
    } else {
      ElsewhereThrough(base, config, orders, f, fuel);
    }
  }

  /** A frame that arrives at a side of a rule. */
  function Probe(o: Order): Frame {
    Frame(o.rule.inPort, [o.rule.vlanIn], 0)
  }

  /** If the outside is the same, a limited tunnel's frames leave by its own port, which is another one. */
  lemma ProbeLeaves(base: seq<Flow>, config: SwitchConfig, orders: seq<Order>, i: nat, fuel: nat)
    requires Yields(base, config, orders) && SidesApart(orders) && ClearOfLimiter(config, orders) && fuel >= 1
    requires i < |orders| && IsLimited(config, orders[i]) && Refines(base, config, orders, fuel)
    ensures orders[i].rule.inPort != orders[i].rule.outPort
    ensures Through(TableOf(base, config, orders), config, Probe(orders[i]), fuel)
            == [Out(orders[i].rule.outPort, [orders[i].rule.vlanOut])]
  {
    var f := Probe(orders[i]);
    assert AtSide(orders, i, false, f) && f.tags[1..] == [];
    assert SameOutside(base, config, orders, f, fuel);
    AtSideProcess(base, Unlimited(config), orders, i, false, f);
    var j := LimitedThrough(base, config, orders, i, false, f, fuel);
    assert [orders[i].rule.vlanOut] + f.tags[1..] == [orders[i].rule.vlanOut];
  }

  /** Frames of two tunnels that share a VLAN are the same frame inside the limiter, and leave the same way. */
  lemma SharedLeaves(base: seq<Flow>, config: SwitchConfig, orders: seq<Order>, i: nat, j: nat, fuel: nat)
    requires Yields(base, config, orders) && SidesApart(orders) && ClearOfLimiter(config, orders) && fuel >= 1
             && i < |orders| && j < |orders|
    requires IsLimited(config, orders[i]) && IsLimited(config, orders[j])
             && orders[i].rule.vlanOut == orders[j].rule.vlanOut
    ensures Through(TableOf(base, config, orders), config, Probe(orders[i]), fuel)
            == Through(TableOf(base, config, orders), config, Probe(orders[j]), fuel)
  {
    var flows, vlan := TableOf(base, config, orders), orders[i].rule.vlanOut;
    AtSideProcess(base, config, orders, i, false, Probe(orders[i]));
    AtSideProcess(base, config, orders, j, false, Probe(orders[j]));
    assert Probe(orders[i]).tags[1..] == [] && Probe(orders[j]).tags[1..] == [];
    LimitedOne(flows, config, Out(config.bwIn, [vlan] + []), 0, fuel);
  }

  lemma SameSide(orders: seq<Order>, i: nat, j: nat)
    requires SidesApart(orders) && i < |orders| && j < |orders|
             && Side(orders[i].rule, true) == Side(orders[j].rule, true)
    ensures i == j
  {
  }

  /** The switch with its limiter forwards exactly like a plain switch, for every frame from outside, if
      and only if no limited tunnel turns around and no two share a VLAN inside the limiter. */
  lemma RefinesIff(base: seq<Flow>, config: SwitchConfig, orders: seq<Order>, fuel: nat)
    requires Yields(base, config, orders) && SidesApart(orders) && ClearOfLimiter(config, orders) && fuel >= 1
    ensures Refines(base, config, orders, fuel) <==> NoTurn(config, orders) && OwnVlans(config, orders)
  {
    if NoTurn(config, orders) && OwnVlans(config, orders) {
      forall f: Frame | !IsBw(config, f.inPort) ensures SameOutside(base, config, orders, f, fuel) {
        RefinesIf(base, config, orders, f, fuel);
      }
    }
    if Refines(base, config, orders, fuel) {
      forall i | 0 <= i < |orders| && IsLimited(config, orders[i])
        ensures orders[i].rule.inPort != orders[i].rule.outPort
      {
        ProbeLeaves(base, config, orders, i, fuel);
      }
      forall i, j | 0 <= i < j < |orders| && IsLimited(config, orders[i]) && IsLimited(config, orders[j])
        ensures orders[i].rule.vlanOut != orders[j].rule.vlanOut
      {
        if orders[i].rule.vlanOut == orders[j].rule.vlanOut {
          ProbeLeaves(base, config, orders, i, fuel);
          ProbeLeaves(base, config, orders, j, fuel);
          SharedLeaves(base, config, orders, i, j, fuel);
          SameSide(orders, i, j);
          assert false;
        }
      }
    }
  }

  // ----- Where the limiter shows -----

  const CORSA := SwitchConfig("corsa", 101, 102)

  /** Two limited tunnels within one switch, with the VLAN of their output side in common. */
  const SHARING := [Order(1, VlanRule(1, 2, 10, 30, true, Some(5))), Order(2, VlanRule(3, 4, 11, 30, true, Some(5)))]

  /** A limited tunnel between two VLANs of one port. */
  const TURNING := [Order(1, VlanRule(1, 1, 10, 20, true, Some(5)))]

  lemma ExamplesApart()
    ensures SidesApart(SHARING) && ClearOfLimiter(CORSA, SHARING)
    ensures SidesApart(TURNING) && ClearOfLimiter(CORSA, TURNING)
  {
  }

  /** Without a limiter the frame would leave by the rule's own port. */
  lemma PlainLeaves(base: seq<Flow>, config: SwitchConfig, orders: seq<Order>, i: nat)
    requires Yields(base, config, orders) && SidesApart(orders) && i < |orders| && !IsBw(config, orders[i].rule.inPort)
    ensures Process(TableOf(base, Unlimited(config), orders), L2TUNNEL_TABLE, Probe(orders[i]))
         == if orders[i].rule.outPort != orders[i].rule.inPort
            then [Out(orders[i].rule.outPort, [orders[i].rule.vlanOut])] else []
  {
    assert AtSide(orders, i, false, Probe(orders[i]));
    AtSideProcess(base, Unlimited(config), orders, i, false, Probe(orders[i]));
    assert [orders[i].rule.vlanOut] + Probe(orders[i]).tags[1..] == [orders[i].rule.vlanOut];
  }

  /** The limiter mixes the first two up: one of the two frames leaves where it would not without a limiter. */
  lemma SharingShows(base: seq<Flow>, fuel: nat)
    requires Yields(base, CORSA, SHARING) && fuel >= 1
    ensures SidesApart(SHARING) && ClearOfLimiter(CORSA, SHARING)
    ensures !SameOutside(base, CORSA, SHARING, Probe(SHARING[0]), fuel)
            || !SameOutside(base, CORSA, SHARING, Probe(SHARING[1]), fuel)
  {
    ExamplesApart();
    SharedLeaves(base, CORSA, SHARING, 0, 1, fuel);
    PlainLeaves(base, CORSA, SHARING, 0);
    PlainLeaves(base, CORSA, SHARING, 1);
    assert Out(2, [30]) != Out(4, [30]);
  }

  /** It sends the last one's frames back out of their port, which a switch does not do. */
  lemma TurningShows(base: seq<Flow>, fuel: nat)
    requires Yields(base, CORSA, TURNING) && fuel >= 1
    ensures SidesApart(TURNING) && ClearOfLimiter(CORSA, TURNING)
    ensures !SameOutside(base, CORSA, TURNING, Probe(TURNING[0]), fuel)
  {
    ExamplesApart();
    assert AtSide(TURNING, 0, false, Probe(TURNING[0]));
    PlainLeaves(base, CORSA, TURNING, 0);
    var j := LimitedThrough(base, CORSA, TURNING, 0, false, Probe(TURNING[0]), fuel);
  }
}
