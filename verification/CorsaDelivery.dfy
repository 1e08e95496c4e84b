/** Tunnels over switches with limiters: what the limiter needs follows from the tunnels' reservations, except where
    tunnels begin and end on the same switch; then every tunnel delivers through the limiters too. */
module CorsaDelivery {
  import opened Basics
  import opened Graphs
  import opened PathResources
  import opened TopologyManagers
  import opened RuleManagers
  import opened OpenFlow
  import opened RyuTranslate
  import opened L2Tunnels
  import opened TunnelIsolation
  import opened TunnelDelivery
  import opened CorsaLimiter

  // ----- The orders of a switch -----

  function PlaceOn(path: seq<Node>, u: Node): (p: nat)
    requires u in path
    ensures p < |path| && path[p] == u
  {
    if path[0] == u then 0 else 1 + PlaceOn(path[1..], u)
  }

  /** Which of the tunnel's rules is for the switch in this place of its path. */
  function RuleInPlace(n: nat, p: nat): nat {
    if p == 0 then 0 else if p == n - 1 then 1 else p + 1
  }

  /** The tunnel's rule for switch u. */
  ghost function OrderOf(w: Wiring, l: Laid, u: Node): Order
    requires LaidOk(w, l) && u in l.path
  {
    Order(l.cookie, RulesOf(w, l.t, l.path, l.iv)[RuleInPlace(|l.path|, PlaceOn(l.path, u))].rule)
  }

  /** What the local controller of u is given for the tunnels. */
  ghost function OrdersAt(w: Wiring, ls: seq<Laid>, u: Node): seq<Order>
    requires AllLaid(w, ls)
  {
    if ls == [] then [] else
      var front, l := ls[..|ls| - 1], ls[|ls| - 1];
      assert forall i :: 0 <= i < |front| ==> front[i] == ls[i];
      OrdersAt(w, front, u) + if u in l.path then [OrderOf(w, l, u)] else []
  }

  /** Where the tunnel listens on u: the first of two places, the second is on the other side of its order. */
  function SlotOn(l: Laid, u: Node): Slot
    requires u in l.path
  {
    FirstSide(l.path, RuleInPlace(|l.path|, PlaceOn(l.path, u)))
  }

  lemma OrderSides(w: Wiring, l: Laid, u: Node)
    requires LaidOk(w, l) && u in l.path
    ensures var s, r := SlotOn(l, u), OrderOf(w, l, u).rule;
            && Used(l.path, s) && Used(l.path, Mate(l.path, s)) && s != Mate(l.path, s)
            && r.bidirectional && r.bandwidth == Some(l.t.bandwidth)
            && LaidKey(w, l, s) == Key(u, r.inPort, r.vlanIn)
            && LaidKey(w, l, Mate(l.path, s)) == Key(u, r.outPort, r.vlanOut)
  {
  }

  function SlotAt(l: Laid, u: Node, output: bool): Slot
    requires u in l.path
  {
    if output then Mate(l.path, SlotOn(l, u)) else SlotOn(l, u)
  }

  lemma FrontLaid(w: Wiring, front: seq<Laid>, l: Laid)
    requires AllLaid(w, front + [l])
    ensures AllLaid(w, front) && LaidOk(w, l)
  {
    var ls := front + [l];
    assert ls[|front|] == l && forall i :: 0 <= i < |front| ==> ls[i] == front[i];
  }

  lemma OrdersGrow(w: Wiring, front: seq<Laid>, l: Laid, u: Node)
    requires AllLaid(w, front + [l]) && AllLaid(w, front) && LaidOk(w, l)
    ensures OrdersAt(w, front + [l], u)
         == if u in l.path then OrdersAt(w, front, u) + [OrderOf(w, l, u)] else OrdersAt(w, front, u)
  {
    assert (front + [l])[..|front|] == front;
  }

  /** Every order of the switch is some tunnel's. */
  ghost predicate From(w: Wiring, ls: seq<Laid>, u: Node, o: Order, k: int)
    requires AllLaid(w, ls)
  {
    0 <= k < |ls| && u in ls[k].path && o == OrderOf(w, ls[k], u)
  }

  lemma {:induction false} OrderFrom(w: Wiring, ls: seq<Laid>, u: Node, o: Order)
    requires AllLaid(w, ls)
    ensures o in OrdersAt(w, ls, u) <==> exists k :: From(w, ls, u, o, k)
    decreases |ls|
  {
    if ls != [] {
      var front, l := ls[..|ls| - 1], ls[|ls| - 1];
      FrontAndLast(ls);
      FrontLaid(w, front, l);
      OrdersGrow(w, front, l, u);
      OrderFrom(w, front, u, o);
      if k :| From(w, ls, u, o, k) {
        if k < |front| { assert From(w, front, u, o, k); }
      }
      if k :| From(w, front, u, o, k) { assert From(w, ls, u, o, k); }
      if u in l.path && o == OrderOf(w, l, u) { assert From(w, ls, u, o, |front|); }
    }
  }

  // ----- Sides -----

  /** Tunnels that are apart have no side in common on any switch. */
  lemma OrdersMeet(w: Wiring, ls: seq<Laid>, u: Node, k: nat, a: bool, k': nat, b: bool)
    requires AllLaid(w, ls) && Apart(w, ls) && k < |ls| && k' < |ls| && u in ls[k].path && u in ls[k'].path
    requires Side(OrderOf(w, ls[k], u).rule, a) == Side(OrderOf(w, ls[k'], u).rule, b)
    ensures k == k' && a == b
  {
    OrderSides(w, ls[k], u);
    OrderSides(w, ls[k'], u);
    assert SharesKey(w, ls[k], ls[k'], SlotAt(ls[k], u, a), SlotAt(ls[k'], u, b));
  }

  lemma FrontApart(w: Wiring, front: seq<Laid>, l: Laid)
    requires AllLaid(w, front + [l]) && AllLaid(w, front) && Apart(w, front + [l])
    ensures Apart(w, front)
  {
    var ls := front + [l];
    forall i, s, j, s' | 0 <= i < |front| && 0 <= j < |front| && SharesKey(w, front[i], front[j], s, s')
      ensures i == j && s == s'
    {
      assert SharesKey(w, ls[i], ls[j], s, s');
    }
  }

  ghost predicate Clashes(orders: seq<Order>, o: Order) {
    exists i, a, b :: 0 <= i < |orders| && Side(orders[i].rule, a) == Side(o.rule, b)
  }

  lemma SidesGrow(orders: seq<Order>, o: Order)
    requires SidesApart(orders) && o.rule.bidirectional && !Clashes(orders, o)
             && Side(o.rule, true) != Side(o.rule, false)
    ensures SidesApart(orders + [o])
  {
    var all := orders + [o];
    forall i, a, j, b
      | 0 <= i < |all| && 0 <= j < |all| && Side(all[i].rule, a) == Side(all[j].rule, b)
      ensures i == j && a == b
    {
      assert all[i] == if i < |orders| then orders[i] else o;
    }
  }

  lemma NoClash(w: Wiring, front: seq<Laid>, l: Laid, u: Node)
    requires AllLaid(w, front + [l]) && AllLaid(w, front) && LaidOk(w, l) && Apart(w, front + [l]) && u in l.path
    ensures !Clashes(OrdersAt(w, front, u), OrderOf(w, l, u))
    ensures Side(OrderOf(w, l, u).rule, true) != Side(OrderOf(w, l, u).rule, false)
  {
    var ls, orders, n := front + [l], OrdersAt(w, front, u), |front|;
    if i, a, b :| 0 <= i < |orders| && Side(orders[i].rule, a) == Side(OrderOf(w, l, u).rule, b) {
      OrderFrom(w, front, u, orders[i]);
      var k :| From(w, front, u, orders[i], k);
      assert ls[k] == front[k] && ls[n] == l;
      OrdersMeet(w, ls, u, k, a, n, b);
    }
    if Side(OrderOf(w, l, u).rule, true) == Side(OrderOf(w, l, u).rule, false) {
      assert ls[n] == l;
      OrdersMeet(w, ls, u, n, true, n, false);
    }
  }

  /** So no two sides of the orders on a switch listen in the same place. */
  lemma {:induction false} OrdersApart(w: Wiring, ls: seq<Laid>, u: Node)
    requires AllLaid(w, ls) && Apart(w, ls)
    ensures SidesApart(OrdersAt(w, ls, u))
    decreases |ls|
  {
    if ls != [] {
      var front, l := ls[..|ls| - 1], ls[|ls| - 1];
      FrontAndLast(ls);
      FrontLaid(w, front, l);
      FrontApart(w, front, l);
      OrdersGrow(w, front, l, u);
      OrdersApart(w, front, u);
      if u in l.path {
        NoClash(w, front, l, u);
        OrderSides(w, l, u);
        SidesGrow(OrdersAt(w, front, u), OrderOf(w, l, u));
      }
    }
  }

  // ----- When the limiter is invisible -----

  /** The tunnel begins and ends on one switch. */
  predicate Near(l: Laid) {
    |l.path| == 1
  }

  predicate Slowed(config: SwitchConfig, l: Laid) {
    config.corsaUrl != "" && l.t.bandwidth != 0
  }

  /** The VLAN a tunnel uses inside the limiter: its intermediate one, but within a switch that of its far end. */
  function LimiterVlan(l: Laid): int {
    if Near(l) then l.t.dstVlan else l.iv
  }

  predicate NoNearTurn(config: SwitchConfig, l: Laid, u: Node) {
    u in l.path && Near(l) && Slowed(config, l) ==> l.t.srcPort != l.t.dstPort
  }

  predicate Shares(config: SwitchConfig, l: Laid, l': Laid, u: Node) {
    && u in l.path && u in l'.path && Slowed(config, l) && Slowed(config, l')
    && (Near(l) || Near(l')) && LimiterVlan(l) == LimiterVlan(l')
  }

  /** What is left to ask of the tunnels on a switch: only those that stay within it matter. */
  predicate NearOk(config: SwitchConfig, ls: seq<Laid>, u: Node) {
    && (forall k :: 0 <= k < |ls| ==> NoNearTurn(config, ls[k], u))
    && forall k, k' :: 0 <= k < k' < |ls| ==> !Shares(config, ls[k], ls[k'], u)
  }

  /** Tunnels through a common switch have different intermediate VLANs. */
  ghost predicate InnerApart(ls: seq<Laid>) {
    forall k, k', u :: 0 <= k < k' < |ls| && u in ls[k].path && u in ls[k'].path ==> ls[k].iv != ls[k'].iv
  }

  lemma ReservesInner(w: Wiring, l: Laid, u: Node)
    requires LaidOk(w, l) && u in l.path
    ensures Take(w, TunnelResources(l.t, l.path, l.iv)[0], NodeVlan(u, l.iv)) >= 1
  {
    OccursDistinct(l.path, u);
  }

  lemma ActiveInnerApart(w: Wiring, nodes: Nodes, edges: Links, table: Table, last: int, leaked: seq<Resource>,
                         ls: seq<Laid>, rows: seq<nat>)
    requires BooksOk(w, nodes, edges, table, last, leaked, []) && AllActive(w, table, ls, rows)
    ensures InnerApart(ls)
  {
    forall k, k', u | 0 <= k < k' < |ls| && u in ls[k].path && u in ls[k'].path ensures ls[k].iv != ls[k'].iv {
      if ls[k].iv == ls[k'].iv {
        ReservesInner(w, ls[k], u);
        ReservesInner(w, ls[k'], u);
        Exclusive(w, nodes, edges, table, last, leaked, rows[k], 0, rows[k'], 0, NodeVlan(u, ls[k].iv));
      }
    }
  }

  lemma OrderVlan(w: Wiring, l: Laid, u: Node, config: SwitchConfig)
    requires LaidOk(w, l) && u in l.path
    ensures OrderOf(w, l, u).rule.vlanOut == LimiterVlan(l)
    ensures IsLimited(config, OrderOf(w, l, u)) <==> Slowed(config, l)
  {
    OrderSides(w, l, u);
    FarVlan(w, l, SlotOn(l, u));
  }

  lemma FarVlan(w: Wiring, l: Laid, s: Slot)
    requires LaidOk(w, l) && Used(l.path, s) && Used(l.path, Mate(l.path, s))
    requires s == SrcIn || (!Near(l) && s == DstIn) || s.MidIn?
    ensures LaidKey(w, l, Mate(l.path, s)).vlan == LimiterVlan(l)
  {
  }

  /** On a longer way a switch's two ports are different ones. */
  lemma OrderTurns(w: Wiring, l: Laid, u: Node)
    requires WiringOk(w) && LaidOk(w, l) && u in l.path && EdgePorts(w, l)
    ensures var r := OrderOf(w, l, u).rule; r.inPort != r.outPort <==> !Near(l) || l.t.srcPort != l.t.dstPort
  {
    if !Near(l) {
      var p := PlaceOn(l.path, u);
      var s := Enter(l.path, false, p);
      EntersLeaves(w, l, false, p);
      PortsDiffer(w, l, false, p, LaidKey(w, l, s), LaidKey(w, l, Mate(l.path, s)));
      OrderSides(w, l, u);
      assert s == SlotOn(l, u) || s == Mate(l.path, SlotOn(l, u));
    }
  }

  lemma TurnsIff(w: Wiring, ls: seq<Laid>, u: Node, config: SwitchConfig)
    requires WiringOk(w) && AllLaid(w, ls) && AllAtEdge(w, ls)
    ensures NoTurn(config, OrdersAt(w, ls, u)) <==> forall k :: 0 <= k < |ls| ==> NoNearTurn(config, ls[k], u)
  {
    var orders := OrdersAt(w, ls, u);
    if NoTurn(config, orders) {
      forall k | 0 <= k < |ls| ensures NoNearTurn(config, ls[k], u) {
        if u in ls[k].path {
          var o := OrderOf(w, ls[k], u);
          assert From(w, ls, u, o, k);
          OrderFrom(w, ls, u, o);
          var i :| 0 <= i < |orders| && orders[i] == o;
          OrderTurns(w, ls[k], u);
          OrderVlan(w, ls[k], u, config);
        }
      }
    }
    if forall k :: 0 <= k < |ls| ==> NoNearTurn(config, ls[k], u) {
      forall i | 0 <= i < |orders| && IsLimited(config, orders[i])
        ensures orders[i].rule.inPort != orders[i].rule.outPort
      {
        OrderFrom(w, ls, u, orders[i]);
        var k :| From(w, ls, u, orders[i], k);
        assert NoNearTurn(config, ls[k], u);
        OrderTurns(w, ls[k], u);
        OrderVlan(w, ls[k], u, config);
      }
    }
  }

  ghost predicate AllAtEdge(w: Wiring, ls: seq<Laid>)
    requires AllLaid(w, ls)
  {
    forall k {:trigger ls[k]} :: 0 <= k < |ls| ==> EdgePorts(w, ls[k])
  }

  predicate SameInside(config: SwitchConfig, o: Order, o': Order) {
    IsLimited(config, o) && IsLimited(config, o') && o.rule.vlanOut == o'.rule.vlanOut
  }

  lemma OwnVlansGrow(config: SwitchConfig, orders: seq<Order>, o: Order)
    ensures OwnVlans(config, orders + [o])
       <==> OwnVlans(config, orders) && forall x :: x in orders ==> !SameInside(config, x, o)
  {
    var all := orders + [o];
    if OwnVlans(config, all) {
      forall i, j | 0 <= i < j < |orders| && IsLimited(config, orders[i]) && IsLimited(config, orders[j])
        ensures orders[i].rule.vlanOut != orders[j].rule.vlanOut
      {
        assert all[i] == orders[i] && all[j] == orders[j];
      }
      forall x | x in orders ensures !SameInside(config, x, o) {
        var i :| 0 <= i < |orders| && orders[i] == x;
        assert all[i] == x && all[|orders|] == o;
      }
    } else if OwnVlans(config, orders) {
      var i, j :| 0 <= i < j < |all| && IsLimited(config, all[i]) && IsLimited(config, all[j])
                  && all[i].rule.vlanOut == all[j].rule.vlanOut;
      assert orders[i] in orders && SameInside(config, orders[i], o);
    }
  }

  /** Of two tunnels through a switch, only one that stays within it can share the other's VLAN in the limiter. */
  lemma SharesInside(w: Wiring, l: Laid, l': Laid, u: Node, config: SwitchConfig)
    requires LaidOk(w, l) && LaidOk(w, l') && u in l.path && u in l'.path && l.iv != l'.iv
    ensures SameInside(config, OrderOf(w, l, u), OrderOf(w, l', u)) <==> Shares(config, l, l', u)
  {
    OrderVlan(w, l, u, config);
    OrderVlan(w, l', u, config);
  }

  lemma FrontInner(front: seq<Laid>, l: Laid)
    requires InnerApart(front + [l])
    ensures InnerApart(front)
    ensures forall k, u :: 0 <= k < |front| && u in front[k].path && u in l.path ==> front[k].iv != l.iv
  {
    var ls := front + [l];
    assert ls[|front|] == l && forall k :: 0 <= k < |front| ==> ls[k] == front[k];
  }

  predicate PairsOk(config: SwitchConfig, ls: seq<Laid>, u: Node) {
    forall k, k' :: 0 <= k < k' < |ls| ==> !Shares(config, ls[k], ls[k'], u)
  }

  lemma PairsGrow(config: SwitchConfig, front: seq<Laid>, l: Laid, u: Node)
    ensures PairsOk(config, front + [l], u)
       <==> PairsOk(config, front, u) && forall k :: 0 <= k < |front| ==> !Shares(config, front[k], l, u)
  {
    var ls := front + [l];
    assert ls[|front|] == l && forall k :: 0 <= k < |front| ==> ls[k] == front[k];
    if PairsOk(config, ls, u) {
      forall k | 0 <= k < |front| ensures !Shares(config, front[k], l, u) {
        assert !Shares(config, ls[k], ls[|front|], u);
      }
      forall k, k' | 0 <= k < k' < |front| ensures !Shares(config, front[k], front[k'], u) {
        assert !Shares(config, ls[k], ls[k'], u);
      }
    }
  }

  lemma LastShares(w: Wiring, front: seq<Laid>, l: Laid, u: Node, config: SwitchConfig)
    requires AllLaid(w, front) && LaidOk(w, l) && u in l.path
    requires forall k, v :: 0 <= k < |front| && v in front[k].path && v in l.path ==> front[k].iv != l.iv
    ensures (forall x :: x in OrdersAt(w, front, u) ==> !SameInside(config, x, OrderOf(w, l, u)))
       <==> forall k :: 0 <= k < |front| ==> !Shares(config, front[k], l, u)
  {
    var orders, o := OrdersAt(w, front, u), OrderOf(w, l, u);
    if k :| 0 <= k < |front| && Shares(config, front[k], l, u) {
      var x := OrderOf(w, front[k], u);
      assert From(w, front, u, x, k);
      OrderFrom(w, front, u, x);
      SharesInside(w, front[k], l, u, config);
    }
    if x :| x in orders && SameInside(config, x, o) {
      OrderFrom(w, front, u, x);
      var k :| From(w, front, u, x, k);
      SharesInside(w, front[k], l, u, config);
    }
  }

  lemma {:induction false} VlansIff(w: Wiring, ls: seq<Laid>, u: Node, config: SwitchConfig)
    requires AllLaid(w, ls) && InnerApart(ls)
    ensures OwnVlans(config, OrdersAt(w, ls, u)) <==> PairsOk(config, ls, u)
    decreases |ls|
  {
    if ls != [] {
      var front, l := ls[..|ls| - 1], ls[|ls| - 1];
      FrontAndLast(ls);
      FrontLaid(w, front, l);
      FrontInner(front, l);
      OrdersGrow(w, front, l, u);
      VlansIff(w, front, u, config);
      PairsGrow(config, front, l, u);
      if u in l.path {
        OwnVlansGrow(config, OrdersAt(w, front, u), OrderOf(w, l, u));
        LastShares(w, front, l, u, config);
      }
    }
  }

  /** Neither the cables nor the tunnels' edge ports are on the limiter's ports. */
  ghost predicate ClearPorts(w: Wiring, config: SwitchConfig, ls: seq<Laid>, u: Node) {
    && config.bwIn != config.bwOut
    && (forall l :: l in ls ==> (l.t.srcSwitch == u ==> !IsBw(config, l.t.srcPort))
                                && (l.t.dstSwitch == u ==> !IsBw(config, l.t.dstPort)))
    && (u in w ==> forall c :: c in w[u] ==> !IsBw(config, c.port))
  }

  lemma PortClear(w: Wiring, config: SwitchConfig, u: Node, v: Node)
    requires Linked(w, u, v) && forall c :: c in w[u] ==> !IsBw(config, c.port)
    ensures !IsBw(config, PortTo(w, u, v))
  {
    FirstToFinds(w[u], v);
  }

  lemma KeyClear(w: Wiring, config: SwitchConfig, ls: seq<Laid>, k: nat, s: Slot)
    requires AllLaid(w, ls) && k < |ls| && Used(ls[k].path, s)
    requires ClearPorts(w, config, ls, LaidKey(w, ls[k], s).switch)
    ensures !IsBw(config, LaidKey(w, ls[k], s).port)
  {
    var l, u := ls[k], LaidKey(w, ls[k], s).switch;
    assert l in ls && u in w;
    if s != SrcIn && s != DstIn {
      var (i, j) := Toward(l.path, s);
      assert HopOk(w, l.path, if j < i then j else i);
      PortClear(w, config, u, l.path[j]);
    }
  }

  lemma OrdersClear(w: Wiring, config: SwitchConfig, ls: seq<Laid>, u: Node)
    requires AllLaid(w, ls) && ClearPorts(w, config, ls, u)
    ensures ClearOfLimiter(config, OrdersAt(w, ls, u))
  {
    var orders := OrdersAt(w, ls, u);
    forall i | 0 <= i < |orders|
      ensures !IsBw(config, orders[i].rule.inPort) && !IsBw(config, orders[i].rule.outPort)
    {
      OrderFrom(w, ls, u, orders[i]);
      var k :| From(w, ls, u, orders[i], k);
      OrderSides(w, ls[k], u);
      KeyClear(w, config, ls, k, SlotOn(ls[k], u));
      KeyClear(w, config, ls, k, Mate(ls[k].path, SlotOn(ls[k], u)));
    }
  }

  /** The other flows of a switch leave the tunnels' frames to the tunnels, and nothing to the limiter. */
  ghost predicate Below(config: SwitchConfig, base: seq<Flow>) {
    Modest(base) && forall x :: x in base ==> Avoids(config, x)
  }

  /** On a switch with active tunnels the limiter is invisible exactly if no limited tunnel within the switch turns
      around on one port or shares its VLAN with another limited tunnel there. Tunnels that go on to other switches
      never do, because their intermediate VLAN is reserved on the switch. */
  lemma InvisibleIff(w: Wiring, config: SwitchConfig, base: seq<Flow>, ls: seq<Laid>, u: Node, fuel: nat)
    requires WiringOk(w) && AllLaid(w, ls) && Apart(w, ls) && AllAtEdge(w, ls) && InnerApart(ls) && fuel >= 1
    requires ClearPorts(w, config, ls, u) && Below(config, base)
    ensures Refines(base, config, OrdersAt(w, ls, u), fuel) <==> NearOk(config, ls, u)
  {
    OrdersApart(w, ls, u);
    OrdersClear(w, config, ls, u);
    TurnsIff(w, ls, u, config);
    VlansIff(w, ls, u, config);
    RefinesIff(base, config, OrdersAt(w, ls, u), fuel);
  }

  // ----- The network -----

  lemma {:induction false} FlowsOnNone(rules: seq<SwitchRule>, cookie: int, u: Node)
    requires forall i :: 0 <= i < |rules| ==> rules[i].switch != u
    ensures FlowsOn(rules, cookie, u) == []
    decreases |rules|
  {
    if rules != [] { FlowsOnNone(rules[..|rules| - 1], cookie, u); }
  }

  lemma {:induction false} FlowsOnOne(rules: seq<SwitchRule>, cookie: int, u: Node, r: nat)
    requires r < |rules| && forall i :: 0 <= i < |rules| ==> (rules[i].switch == u <==> i == r)
    ensures FlowsOn(rules, cookie, u) == PlainFlows(cookie, L2TUNNEL_TABLE, rules[r].rule)
    decreases |rules|
  {
    var front := rules[..|rules| - 1];
    if r == |front| {
      FlowsOnNone(front, cookie, u);
    } else {
      FlowsOnOne(front, cookie, u, r);
    }
  }

  /** A tunnel has one rule for each switch of its path and none for any other. */
  lemma RulesByPlace(w: Wiring, l: Laid, u: Node)
    requires LaidOk(w, l)
    ensures var rules := RulesOf(w, l.t, l.path, l.iv);
            if u in l.path then
              var r := RuleInPlace(|l.path|, PlaceOn(l.path, u));
              r < |rules| && forall i :: 0 <= i < |rules| ==> (rules[i].switch == u <==> i == r)
            else forall i :: 0 <= i < |rules| ==> rules[i].switch != u
  {
    var rules, n := RulesOf(w, l.t, l.path, l.iv), |l.path|;
    forall i | 0 <= i < |rules| ensures rules[i].switch == l.path[PlaceOfRule(n, i)] {}
  }

  function PlaceOfRule(n: nat, i: nat): nat
    requires n > 0
  {
    if i == 0 then 0 else if i == 1 then n - 1 else i - 1
  }

  /** Without limiters the orders make the tunnels' plain flows. */
  lemma {:induction false} PlainTable(w: Wiring, base: seq<Flow>, config: SwitchConfig, ls: seq<Laid>, u: Node)
    requires AllLaid(w, ls)
    ensures TableOf(base, Unlimited(config), OrdersAt(w, ls, u)) == Stack(base, OwnFlows(w, u), ls)
    decreases |ls|
  {
    if ls != [] {
      var front, l := ls[..|ls| - 1], ls[|ls| - 1];
      FrontAndLast(ls);
      FrontLaid(w, front, l);
      OrdersGrow(w, front, l, u);
      PlainTable(w, base, config, front, u);
      RulesByPlace(w, l, u);
      var rules := RulesOf(w, l.t, l.path, l.iv);
      if u in l.path {
        FlowsOnOne(rules, l.cookie, u, RuleInPlace(|l.path|, PlaceOn(l.path, u)));
        StackLast(base, OrderFlows(Unlimited(config)), OrdersAt(w, front, u), OrderOf(w, l, u));
      } else {
        FlowsOnNone(rules, l.cookie, u);
      }
    }
  }

  lemma StackLast<T>(base: seq<Flow>, own: T -> seq<Flow>, owners: seq<T>, t: T)
    ensures Stack(base, own, owners + [t]) == Stack(base, own, owners) + own(t)
  {
    assert (owners + [t])[..|owners|] == owners;
  }

  /** The switches of the network, each with its limiter if it has one. */
  type Configs = Node -> SwitchConfig

  ghost function LimitedHop(w: Wiring, configs: Configs, bases: Tables, ls: seq<Laid>, fuel: nat, u: Node,
                            f: Frame): Fate
    requires AllLaid(w, ls)
  {
    if u !in w then Lose else
      FateOf(w, u, Through(TableOf(bases(u), configs(u), OrdersAt(w, ls, u)), configs(u), f, fuel), f.dst)
  }

  ghost function LimitedNetwork(w: Wiring, configs: Configs, bases: Tables, ls: seq<Laid>, fuel: nat):
      (Node, Frame) -> Fate
    requires AllLaid(w, ls)
  {
    (u, f) => LimitedHop(w, configs, bases, ls, fuel, u, f)
  }

  /** The frame is not in a limiter. */
  predicate FromOutside(configs: Configs, u: Node, f: Frame) {
    !IsBw(configs(u), f.inPort)
  }

  /** The two networks do the same with every frame from outside, and pass it on to the outside. */
  ghost predicate Agrees(configs: Configs, net: (Node, Frame) -> Fate, net': (Node, Frame) -> Fate) {
    forall u, f {:trigger FromOutside(configs, u, f)} :: FromOutside(configs, u, f) ==>
      && net(u, f) == net'(u, f)
      && (net(u, f).Next? ==> FromOutside(configs, net(u, f).switch, net(u, f).frame))
  }

  lemma {:induction false} SameTravel(configs: Configs, net: (Node, Frame) -> Fate, net': (Node, Frame) -> Fate,
                                      u: Node, f: Frame, fuel: nat)
    requires Agrees(configs, net, net') && FromOutside(configs, u, f)
    ensures Travel(net, u, f, fuel) == Travel(net', u, f, fuel)
    decreases fuel
  {
    if net(u, f).Next? && fuel > 0 {
      SameTravel(configs, net, net', net(u, f).switch, net(u, f).frame, fuel - 1);
    }
  }

  /** What is known of every switch. */
  ghost predicate LimiterOk(w: Wiring, config: SwitchConfig, base: seq<Flow>, ls: seq<Laid>, u: Node) {
    ClearPorts(w, config, ls, u) && Below(config, base) && NearOk(config, ls, u)
  }

  lemma NextOutside(w: Wiring, configs: Configs, ls: seq<Laid>, u: Node, outs: seq<Out>, dst: int)
    requires u in w && FateOf(w, u, outs, dst).Next?
    requires forall v {:trigger configs(v)} :: ClearPorts(w, configs(v), ls, v)
    ensures FromOutside(configs, FateOf(w, u, outs, dst).switch, FateOf(w, u, outs, dst).frame)
  {
    var v := FateOf(w, u, outs, dst).switch;
    assert ClearPorts(w, configs(v), ls, v);
    PortClear(w, configs(v), v, u);
  }

  lemma NetworksAgree(w: Wiring, configs: Configs, bases: Tables, ls: seq<Laid>, fuel: nat)
    requires WiringOk(w) && AllLaid(w, ls) && Apart(w, ls) && AllAtEdge(w, ls) && InnerApart(ls) && fuel >= 1
    requires forall u {:trigger configs(u)} :: LimiterOk(w, configs(u), bases(u), ls, u)
    ensures Agrees(configs, LimitedNetwork(w, configs, bases, ls, fuel), Network(w, OnTop(w, bases, ls)))
  {
    forall u, f | FromOutside(configs, u, f)
      ensures LimitedHop(w, configs, bases, ls, fuel, u, f) == HopAt(w, OnTop(w, bases, ls), u, f)
      ensures HopAt(w, OnTop(w, bases, ls), u, f).Next? ==>
                FromOutside(configs, HopAt(w, OnTop(w, bases, ls), u, f).switch,
                            HopAt(w, OnTop(w, bases, ls), u, f).frame)
    {
      assert LimiterOk(w, configs(u), bases(u), ls, u);
      InvisibleIff(w, configs(u), bases(u), ls, u, fuel);
      assert SameOutside(bases(u), configs(u), OrdersAt(w, ls, u), f, fuel);
      PlainTable(w, bases(u), configs(u), ls, u);
      if u in w && HopAt(w, OnTop(w, bases, ls), u, f).Next? {
        NextOutside(w, configs, ls, u, Process(OnTop(w, bases, ls)(u), L2TUNNEL_TABLE, f), f.dst);
      }
    }
  }

  /** Through limiters or not, active tunnels deliver in both directions, under the conditions under which they do
      without. */
  lemma LimitedTunnelsDeliver(w: Wiring, nodes: Nodes, edges: Links, table: Table, last: int, leaked: seq<Resource>,
                              ls: seq<Laid>, rows: seq<nat>, configs: Configs, bases: Tables, fuel: nat, a: nat,
                              back: bool, inner: seq<int>, dst: int)
    requires WiringOk(w) && BooksOk(w, nodes, edges, table, last, leaked, []) && AllActive(w, table, ls, rows)
    requires AllAtEdge(w, ls) && EndsApart(w, ls) && fuel >= 1
    requires forall u {:trigger configs(u)} :: LimiterOk(w, configs(u), bases(u), ls, u)
    requires a < |ls|
    ensures DeliversBy(LimitedNetwork(w, configs, bases, ls, fuel), ls[a], back, inner, dst)
       <==> |ls[a].path| > 1 || ls[a].t.srcPort != ls[a].t.dstPort
  {
    ActiveApartIff(w, nodes, edges, table, last, leaked, ls, rows);
    ActiveInnerApart(w, nodes, edges, table, last, leaked, ls, rows);
    NetworksAgree(w, configs, bases, ls, fuel);
    forall u ensures Modest(bases(u)) { assert LimiterOk(w, configs(u), bases(u), ls, u); }
    ModestHosts(w, ls, bases, a);
    TunnelDelivers(w, ls, OnTop(w, bases, ls), a, back, inner, dst);
    var l := ls[a];
    var start := End(l.t, back);
    assert LimiterOk(w, configs(start.switch), bases(start.switch), ls, start.switch);
    assert l in ls;
    SameTravel(configs, LimitedNetwork(w, configs, bases, ls, fuel), Network(w, OnTop(w, bases, ls)), start.switch,
               Frame(start.port, [start.vlan] + inner, dst), |l.path| - 1);
  }
}
