/** Tunnels and multipoint LANs that are active at the same time, on switches that carry all the common flows as
    well: the reservations keep their frames apart, so that each of them works as if it were alone. */
module Coexistence {
  import opened Basics
  import opened Graphs
  import opened PathResources
  import opened TopologyManagers
  import opened RuleManagers
  import opened OpenFlow
  import opened RyuTranslate
  import opened L2Tunnels
  import opened TunnelIsolation
  import opened TunnelDelivery
  import opened L2Multipoints
  import opened MultipointFlows
  import opened Flooding
  import E = EdgePorts

  /** A LAN with the list of its switches, and with what the local controllers made of its rules. */
  datatype LaidLan = LaidLan(lan: Lan, treeNodes: seq<Node>, cookies: Node -> int, owns: Node -> seq<Flow>)

  ghost predicate LaidLanOk(w: Wiring, m: LaidLan) {
    && LanOk(m.lan) && m.lan.w == w && Distinct(m.treeNodes) && ToSet(m.treeNodes) == m.lan.nodes
    && forall u {:trigger m.owns(u)} ::
         if u in m.lan.nodes then Translated(Rule(m.lan, u), m.cookies(u), m.owns(u)) else m.owns(u) == []
  }

  function LanResources(m: LaidLan): seq<Resource> {
    MultipointResources(m.lan.endpoints, m.treeNodes, m.lan.hops, m.lan.iv, m.lan.bandwidth)
  }

  /** The rule of row i is this LAN, and it is active. */
  predicate ActiveLan(table: Table, i: nat, m: LaidLan) {
    i < |table| && table[i].state == Active && table[i].resources == LanResources(m)
  }

  ghost predicate LanActive(w: Wiring, table: Table, ms: seq<LaidLan>, rows: seq<nat>, a: int) {
    0 <= a < |ms| && a < |rows| && LaidLanOk(w, ms[a]) && ActiveLan(table, rows[a], ms[a])
  }

  /** `rows` says which row of the rule table each LAN is. */
  ghost predicate LansActive(w: Wiring, table: Table, ms: seq<LaidLan>, rows: seq<nat>) {
    && |rows| == |ms| && (forall i, j :: 0 <= i < j < |rows| ==> rows[i] != rows[j])
    && forall a {:trigger LanActive(w, table, ms, rows, a)} :: 0 <= a < |ms| ==> LanActive(w, table, ms, rows, a)
  }

  // ----- What a LAN reserves -----

  lemma TakesTree(w: Wiring, m: LaidLan, u: Node, v: Node)
    requires LaidLanOk(w, m) && Pair(u, v) in m.lan.edges
    ensures Take(w, LanResources(m)[0], EdgeVlan(Pair(u, v), m.lan.iv)) >= 1
  {
    var hops := m.lan.hops;
    assert Listed(hops, Pair(u, v));
    var i :| 0 <= i < |hops| && Crosses(hops[i], Pair(u, v));
    assert PairsOf(w, LanResources(m)[0]) == hops;
    TimesHas(hops, i);
  }

  lemma TakesNode(w: Wiring, m: LaidLan, u: Node)
    requires LaidLanOk(w, m) && u in m.lan.nodes
    ensures Take(w, LanResources(m)[0], NodeVlan(u, m.lan.iv)) >= 1
  {
    assert u in ToSet(m.treeNodes);
    OccursDistinct(m.treeNodes, u);
  }

  /** The LAN has reserved nothing for this endpoint: it is not the first one listed on its switch, or nothing is
      known to be behind its port. */
  predicate Open(w: Wiring, m: LaidLan, e: Endpoint) {
    VlanPort(e.switch, e.port, e.vlan) !in LanResources(m) || e.switch !in w || PortNeighbor(w, e.switch, e.port).None?
  }

  predicate OpenEnd(w: Wiring, m: LaidLan, e: Endpoint) {
    e in m.lan.endpoints && Open(w, m, e)
  }

  lemma TakesEnd(w: Wiring, m: LaidLan, e: Endpoint) returns (x: nat)
    requires !Open(w, m, e)
    ensures x < |LanResources(m)|
    ensures var n := PortNeighbor(w, e.switch, e.port);
            n.Some? && Take(w, LanResources(m)[x], EdgeVlan(Pair(e.switch, n.value), e.vlan)) >= 1
  {
    var r := VlanPort(e.switch, e.port, e.vlan);
    x :| 0 <= x < |LanResources(m)| && LanResources(m)[x] == r;
    var n := PortNeighbor(w, e.switch, e.port).value;
    assert PairsOf(w, r) == [(e.switch, n)];
    TimesHas([(e.switch, n)], 0);
  }

  /** Where the first table hears the LAN's frames: on a tree port, or at an endpoint. */
  predicate FirstHeard(rule: MultipointRule, f: Frame) {
    HeardBy(rule, f) && (IsEndPort(rule, f.inPort) ==> AtEnd(rule, f.inPort, f.tags[0]))
  }

  /** The endpoint a frame comes from, if there is one. */
  function From(u: Node, f: Frame): Endpoint
    requires f.tags != []
  {
    Endpoint(u, f.inPort, f.tags[0])
  }

  /** There the LAN has reserved the frame's VLAN on the edge behind the port, unless it is an open end. */
  lemma HeardReserved(w: Wiring, m: LaidLan, u: Node, f: Frame) returns (x: nat, n: Node)
    requires LaidLanOk(w, m) && u in m.lan.nodes && FirstHeard(Rule(m.lan, u), f) && !OpenEnd(w, m, From(u, f))
    ensures u in w && PortNeighbor(w, u, f.inPort) == Some(n) && x < |LanResources(m)|
    ensures Take(w, LanResources(m)[x], EdgeVlan(Pair(u, n), f.tags[0])) >= 1
  {
    var rule := Rule(m.lan, u);
    RuleShape(m.lan, u);
    if IsEndPort(rule, f.inPort) {
      var i :| 0 <= i < |Ends(rule)| && Ends(rule)[i] == (f.inPort, f.tags[0]);
      PortsAtHas(m.lan.endpoints, u, f.inPort, f.tags[0]);
      x := TakesEnd(w, m, From(u, f));
      n := PortNeighbor(w, u, f.inPort).value;
    } else {
      x := 0;
      n := TreeNeighbor(m.lan, u, f.inPort);
      TakesTree(w, m, u, n);
    }
  }

  /** A frame from an endpoint is heard there. */
  lemma EndHeard(w: Wiring, m: LaidLan, e: Endpoint)
    requires LaidLanOk(w, m) && e in m.lan.endpoints
    ensures e.switch in m.lan.nodes && Across(w, e.switch, e.port) == None
    ensures FirstHeard(Rule(m.lan, e.switch), Frame(e.port, [e.vlan], 0))
  {
    var i :| 0 <= i < |m.lan.endpoints| && m.lan.endpoints[i] == e;
    EndpointEdge(m.lan, i);
    var rule := Rule(m.lan, e.switch);
    RuleShape(m.lan, e.switch);
    PortsAtHas(m.lan.endpoints, e.switch, e.port, e.vlan);
    var k :| 0 <= k < |Ends(rule)| && Ends(rule)[k] == (e.port, e.vlan);
    assert AtEnd(rule, e.port, e.vlan);
  }

  /** On an edge port the first table hears the frames of endpoints only. */
  lemma HeardFromEnd(w: Wiring, m: LaidLan, u: Node, f: Frame)
    requires LaidLanOk(w, m) && u in m.lan.nodes && FirstHeard(Rule(m.lan, u), f)
    requires u in w && Across(w, u, f.inPort) == None
    ensures From(u, f) in m.lan.endpoints
  {
    var rule := Rule(m.lan, u);
    RuleShape(m.lan, u);
    if IsEndPort(rule, f.inPort) {
      var i :| 0 <= i < |Ends(rule)| && Ends(rule)[i] == (f.inPort, f.tags[0]);
      PortsAtHas(m.lan.endpoints, u, f.inPort, f.tags[0]);
    } else {
      var v := TreeNeighbor(m.lan, u, f.inPort);
      EdgeLink(m.lan, u, v);
      assert false;
    }
  }

  lemma TreeNeighbor(lan: Lan, u: Node, port: int) returns (v: Node)
    requires LanOk(lan) && u in lan.nodes && port in Rule(lan, u).flooding
    ensures Pair(u, v) in lan.edges && u in lan.w && PortNeighbor(lan.w, u, port) == Some(v)
  {
    RuleShape(lan, u);
    Neighborhood(lan, u);
    var i :| 0 <= i < |Rule(lan, u).flooding| && Rule(lan, u).flooding[i] == port;
    v := Around(lan.hops, u)[i];
    EdgeLink(lan, u, v);
    PortAndNeighbor(lan.w, u, v);
  }

  // ----- Whose flows do not get in the way -----

  /** The first table hears the frame for the LAN and for the tunnel. */
  ghost predicate BothHear(w: Wiring, m: LaidLan, l: Laid, s: Slot, f: Frame)
    requires LaidLanOk(w, m) && LaidOk(w, l)
  {
    && Used(l.path, s) && HeardThere(LaidKey(w, l, s), f) && LaidKey(w, l, s).switch in m.lan.nodes
    && FirstHeard(Rule(m.lan, LaidKey(w, l, s).switch), f)
  }

  /** An end of the tunnel is this open end of the LAN. */
  predicate MeetsTunnel(w: Wiring, m: LaidLan, l: Laid, e: Endpoint) {
    OpenEnd(w, m, e) && exists dst :: End(l.t, dst) == Key(e.switch, e.port, e.vlan)
  }

  lemma TransitCrosses(w: Wiring, l: Laid, s: Slot)
    requires WiringOk(w) && LaidOk(w, l) && Used(l.path, s) && !IsEnd(s)
    ensures LaidKey(w, l, s).switch in w && Across(w, LaidKey(w, l, s).switch, LaidKey(w, l, s).port).Some?
  {
    TowardIsNeighbor(w, l, s);
    var (i, j) := Toward(l.path, s);
    assert HopOk(w, l.path, if j < i then j else i);
  }

  /** A tunnel listens where a LAN does only with an end at an open end of the LAN. */
  lemma TunnelMeets(w: Wiring, nodes: Nodes, edges: Links, table: Table, last: int, leaked: seq<Resource>,
                    m: LaidLan, j: nat, f: Frame, l: Laid, i: nat, s: Slot)
    requires WiringOk(w) && BooksOk(w, nodes, edges, table, last, leaked, [])
    requires LaidLanOk(w, m) && ActiveLan(table, j, m) && LaidOk(w, l) && ActiveTunnel(table, i, l)
    requires BothHear(w, m, l, s, f)
    ensures MeetsTunnel(w, m, l, From(LaidKey(w, l, s).switch, f))
  {
    var u := LaidKey(w, l, s).switch;
    if !OpenEnd(w, m, From(u, f)) {
      var x, n := HeardReserved(w, m, u, f);
      ListeningReserved(w, l.t, l.path, l.iv, s, n);
      assert table[i].resources[0].VlanPath? && table[j].resources[0].VlanTree?;
      Exclusive(w, nodes, edges, table, last, leaked, i, Cover(s), j, x, EdgeVlan(Pair(u, n), f.tags[0]));
    } else {
      EndHeard(w, m, From(u, f));
      if !IsEnd(s) { TransitCrosses(w, l, s); }
      assert End(l.t, s == DstIn) == LaidKey(w, l, s);
    }
  }

  /** An active LAN and an active tunnel interfere, that is, the first table of some switch hears some frame for both,
      if and only if an end of the tunnel is an open end of the LAN. */
  lemma TunnelInterferesIff(w: Wiring, nodes: Nodes, edges: Links, table: Table, last: int, leaked: seq<Resource>,
                            m: LaidLan, j: nat, l: Laid, i: nat)
    requires WiringOk(w) && BooksOk(w, nodes, edges, table, last, leaked, [])
    requires LaidLanOk(w, m) && ActiveLan(table, j, m) && LaidOk(w, l) && ActiveTunnel(table, i, l)
    ensures (exists s, f :: BothHear(w, m, l, s, f)) <==> (exists e :: MeetsTunnel(w, m, l, e))
  {
    if s, f :| BothHear(w, m, l, s, f) {
      TunnelMeets(w, nodes, edges, table, last, leaked, m, j, f, l, i, s);
    }
    if e :| MeetsTunnel(w, m, l, e) {
      var dst :| End(l.t, dst) == Key(e.switch, e.port, e.vlan);
      EndHeard(w, m, e);
      assert BothHear(w, m, l, if dst then DstIn else SrcIn, Frame(e.port, [e.vlan], 0));
    }
  }

  /** A tunnel that meets no open end of the LAN has no flow that concerns the LAN's frames. */
  lemma TunnelFlowApart(w: Wiring, nodes: Nodes, edges: Links, table: Table, last: int, leaked: seq<Resource>,
                        m: LaidLan, j: nat, u: Node, f: Frame, l: Laid, i: nat, x: Flow)
    requires WiringOk(w) && BooksOk(w, nodes, edges, table, last, leaked, [])
    requires LaidLanOk(w, m) && ActiveLan(table, j, m) && u in m.lan.nodes
    requires LaidOk(w, l) && ActiveTunnel(table, i, l) && x in OwnFlows(w, u)(l)
    requires forall e :: !MeetsTunnel(w, m, l, e)
    requires HeardBy(Rule(m.lan, u), f) && Matches(x.on, f)
    ensures !Concerns(Rule(m.lan, u), f, x)
  {
    var s := OwnSlot(w, l, u, x);
    if Concerns(Rule(m.lan, u), f, x) {
      assert BothHear(w, m, l, s, f);
      TunnelMeets(w, nodes, edges, table, last, leaked, m, j, f, l, i, s);
    }
  }

  /** The first table hears the frame for both LANs. */
  ghost predicate HearTogether(w: Wiring, m: LaidLan, m': LaidLan, u: Node, f: Frame)
    requires LaidLanOk(w, m) && LaidLanOk(w, m')
  {
    && u in m.lan.nodes && FirstHeard(Rule(m.lan, u), f)
    && u in m'.lan.nodes && FirstHeard(Rule(m'.lan, u), f)
  }

  /** The LANs share this endpoint, and it is an open end of one of them. */
  predicate MeetsLan(w: Wiring, m: LaidLan, m': LaidLan, e: Endpoint) {
    e in m.lan.endpoints && e in m'.lan.endpoints && (Open(w, m, e) || Open(w, m', e))
  }

  lemma LanMeets(w: Wiring, nodes: Nodes, edges: Links, table: Table, last: int, leaked: seq<Resource>,
                 m: LaidLan, i: nat, m': LaidLan, j: nat, u: Node, f: Frame)
    requires BooksOk(w, nodes, edges, table, last, leaked, []) && i != j
    requires LaidLanOk(w, m) && ActiveLan(table, i, m) && LaidLanOk(w, m') && ActiveLan(table, j, m')
    requires HearTogether(w, m, m', u, f)
    ensures MeetsLan(w, m, m', From(u, f))
  {
    var e := From(u, f);
    if OpenEnd(w, m, e) {
      EndHeard(w, m, e);
      HeardFromEnd(w, m', u, f);
    } else if OpenEnd(w, m', e) {
      EndHeard(w, m', e);
      HeardFromEnd(w, m, u, f);
    } else {
      var x, n := HeardReserved(w, m, u, f);
      var y, n' := HeardReserved(w, m', u, f);
      Exclusive(w, nodes, edges, table, last, leaked, i, x, j, y, EdgeVlan(Pair(u, n), f.tags[0]));
    }
  }

  /** Two active LANs interfere in the first table of some switch if and only if they share an endpoint that is an
      open end of one of them. */
  lemma LansInterfereIff(w: Wiring, nodes: Nodes, edges: Links, table: Table, last: int, leaked: seq<Resource>,
                         m: LaidLan, i: nat, m': LaidLan, j: nat)
    requires BooksOk(w, nodes, edges, table, last, leaked, []) && i != j
    requires LaidLanOk(w, m) && ActiveLan(table, i, m) && LaidLanOk(w, m') && ActiveLan(table, j, m')
    ensures (exists u, f :: HearTogether(w, m, m', u, f)) <==> (exists e :: MeetsLan(w, m, m', e))
  {
    if u, f :| HearTogether(w, m, m', u, f) {
      LanMeets(w, nodes, edges, table, last, leaked, m, i, m', j, u, f);
    }
    if e :| MeetsLan(w, m, m', e) {
      EndHeard(w, m, e);
      EndHeard(w, m', e);
      assert HearTogether(w, m, m', e.switch, Frame(e.port, [e.vlan], 0));
    }
  }

  /** Two LANs through one switch have different intermediate VLANs. */
  lemma OwnInside(w: Wiring, nodes: Nodes, edges: Links, table: Table, last: int, leaked: seq<Resource>,
                  m: LaidLan, i: nat, m': LaidLan, j: nat, u: Node)
    requires BooksOk(w, nodes, edges, table, last, leaked, []) && i != j
    requires LaidLanOk(w, m) && ActiveLan(table, i, m) && u in m.lan.nodes
    requires LaidLanOk(w, m') && ActiveLan(table, j, m') && u in m'.lan.nodes
    ensures m.lan.iv != m'.lan.iv
  {
    if m.lan.iv == m'.lan.iv {
      TakesNode(w, m, u);
      TakesNode(w, m', u);
      Exclusive(w, nodes, edges, table, last, leaked, i, 0, j, 0, NodeVlan(u, m.lan.iv));
    }
  }

  /** If they share no such endpoint, a flow of one LAN does not concern the frames of the other. */
  lemma LanFlowApart(w: Wiring, nodes: Nodes, edges: Links, table: Table, last: int, leaked: seq<Resource>,
                     m: LaidLan, i: nat, m': LaidLan, j: nat, u: Node, f: Frame, x: Flow)
    requires BooksOk(w, nodes, edges, table, last, leaked, []) && i != j
    requires LaidLanOk(w, m) && ActiveLan(table, i, m) && u in m.lan.nodes
    requires LaidLanOk(w, m') && ActiveLan(table, j, m') && x in m'.owns(u)
    requires forall e :: !MeetsLan(w, m, m', e)
    requires HeardBy(Rule(m.lan, u), f) && Matches(x.on, f)
    ensures !Concerns(Rule(m.lan, u), f, x)
  {
    assert u in m'.lan.nodes;
    var rule, rule' := Rule(m.lan, u), Rule(m'.lan, u);
    RuleShape(m.lan, u);
    RuleShape(m'.lan, u);
    if Concerns(rule, f, x) {
      if x.table == L2TUNNEL_TABLE {
        var k := OwnIngress(rule', m'.cookies(u), m'.owns(u), x);
        assert AtEnd(rule', f.inPort, f.tags[0]);
        assert HearTogether(w, m, m', u, f);
        LanMeets(w, nodes, edges, table, last, leaked, m, i, m', j, u, f);
      } else {
        OnInner(rule', m'.cookies(u), m'.owns(u), x, f);
        OwnInside(w, nodes, edges, table, last, leaked, m, i, m', j, u);
      }
    }
  }

  /** Behind the first table a LAN's flows match the intermediate VLAN. */
  lemma OnInner(rule: MultipointRule, cookie: int, own: seq<Flow>, x: Flow, f: Frame)
    requires Translated(rule, cookie, own) && x in own && x.table != L2TUNNEL_TABLE && Matches(x.on, f)
    ensures f.tags != [] && f.tags[0] == rule.iv
  {
    OwnKinds(rule, cookie, own, x);
  }

  // ----- Together -----

  /** What the switches carry: the common flows, then those of the LANs, then those of the tunnels. */
  ghost function LanFlows(u: Node): LaidLan -> seq<Flow> {
    (m: LaidLan) => m.owns(u)
  }

  ghost function BelowTunnels(bases: Tables, ms: seq<LaidLan>): Tables {
    u => Stack(bases(u), LanFlows(u), ms)
  }

  ghost function Deployed(w: Wiring, bases: Tables, ms: seq<LaidLan>, ls: seq<Laid>): Tables {
    OnTop(w, BelowTunnels(bases, ms), ls)
  }

  /** No open end of a LAN is an endpoint of another policy, and tunnels share no end on a port that leads nowhere. */
  ghost predicate NoClash(w: Wiring, ms: seq<LaidLan>, ls: seq<Laid>)
    requires AllLaid(w, ls)
  {
    && (forall a, b, e {:trigger MeetsLan(w, ms[a], ms[b], e)} ::
          0 <= a < |ms| && 0 <= b < |ms| && a != b ==> !MeetsLan(w, ms[a], ms[b], e))
    && (forall a, i, e {:trigger MeetsTunnel(w, ms[a], ls[i], e)} ::
          0 <= a < |ms| && 0 <= i < |ls| ==> !MeetsTunnel(w, ms[a], ls[i], e))
    && EndsApart(w, ls)
  }

  /** The books are in order, and these LANs and tunnels are active and do not clash. */
  ghost predicate InForce(w: Wiring, nodes: Nodes, edges: Links, table: Table, last: int, leaked: seq<Resource>,
                          ms: seq<LaidLan>, mrows: seq<nat>, ls: seq<Laid>, lrows: seq<nat>) {
    && WiringOk(w) && BooksOk(w, nodes, edges, table, last, leaked, [])
    && LansActive(w, table, ms, mrows) && AllActive(w, table, ls, lrows) && NoClash(w, ms, ls)
  }

  lemma InDeployed(w: Wiring, bases: Tables, ms: seq<LaidLan>, ls: seq<Laid>, u: Node, x: Flow)
    ensures x in Deployed(w, bases, ms, ls)(u) <==>
            || x in bases(u) || (exists b :: 0 <= b < |ms| && x in LanFlows(u)(ms[b]))
            || exists i :: 0 <= i < |ls| && x in OwnFlows(w, u)(ls[i])
  {
    InStack(BelowTunnels(bases, ms)(u), OwnFlows(w, u), ls, x);
    InStack(bases(u), LanFlows(u), ms, x);
  }

  /** No flow on the switch but the LAN's own and the starting rules decides about the LAN's frames. */
  lemma NobodyElse(w: Wiring, nodes: Nodes, edges: Links, table: Table, last: int, leaked: seq<Resource>,
                   ms: seq<LaidLan>, mrows: seq<nat>, ls: seq<Laid>, lrows: seq<nat>, bases: Tables, a: nat, u: Node,
                   f: Frame, x: Flow)
    requires InForce(w, nodes, edges, table, last, leaked, ms, mrows, ls, lrows)
    requires a < |ms| && u in ms[a].lan.nodes && E.Common(w, u, bases(u)) && Wired(ms[a].lan.w, ms[a].lan.hops)
    requires HeardBy(Rule(ms[a].lan, u), f) && x in Deployed(w, bases, ms, ls)(u) && Matches(x.on, f)
    requires Concerns(Rule(ms[a].lan, u), f, x)
    ensures x in ms[a].owns(u) || x in Bootstrap(-1)
  {
    assert LanActive(w, table, ms, mrows, a);
    InDeployed(w, bases, ms, ls, u, x);
    if x in bases(u) {
      if x !in Bootstrap(-1) { E.NotConcerned(ms[a].lan, u, bases(u), f, x); }
    } else if b :| 0 <= b < |ms| && x in LanFlows(u)(ms[b]) {
      if b != a {
        assert LanActive(w, table, ms, mrows, b);
        LanFlowApart(w, nodes, edges, table, last, leaked, ms[a], mrows[a], ms[b], mrows[b], u, f, x);
      }
    } else {
      var i :| 0 <= i < |ls| && x in OwnFlows(w, u)(ls[i]);
      TunnelFlowApart(w, nodes, edges, table, last, leaked, ms[a], mrows[a], u, f, ls[i], lrows[i], x);
    }
  }

  lemma LanServed(w: Wiring, nodes: Nodes, edges: Links, table: Table, last: int, leaked: seq<Resource>,
                  ms: seq<LaidLan>, mrows: seq<nat>, ls: seq<Laid>, lrows: seq<nat>, bases: Tables, a: nat, u: Node)
    requires InForce(w, nodes, edges, table, last, leaked, ms, mrows, ls, lrows)
    requires a < |ms| && Wired(ms[a].lan.w, ms[a].lan.hops) && u in ms[a].lan.nodes && E.Common(w, u, bases(u))
    ensures Serves(ms[a].lan, ms[a].cookies(u), ms[a].owns(u), Deployed(w, bases, ms, ls)(u), u)
  {
    assert LanActive(w, table, ms, mrows, a);
    var m, flows := ms[a], Deployed(w, bases, ms, ls)(u);
    var rule, own := Rule(m.lan, u), m.owns(u);
    forall x | x in own ensures x in flows {
      assert x in LanFlows(u)(ms[a]);
      InDeployed(w, bases, ms, ls, u, x);
    }
    forall x | x in Bootstrap(-1) ensures x in flows { InDeployed(w, bases, ms, ls, u, x); }
    forall f | HeardBy(rule, f) ensures Hosts(rule, flows, own, f) {
      forall x | x in flows && Matches(x.on, f) && Concerns(rule, f, x) ensures x in own || x in Bootstrap(-1) {
        NobodyElse(w, nodes, edges, table, last, leaked, ms, mrows, ls, lrows, bases, a, u, f, x);
      }
    }
  }

  /** Common flows and those of LANs leave the tunnels' frames to the tunnels. */
  lemma BelowModest(w: Wiring, table: Table, ms: seq<LaidLan>, mrows: seq<nat>, bases: Tables, u: Node)
    requires LansActive(w, table, ms, mrows) && E.Common(w, u, bases(u))
    ensures Modest(BelowTunnels(bases, ms)(u))
  {
    forall x | x in BelowTunnels(bases, ms)(u) && x.table == L2TUNNEL_TABLE ensures x.priority < PRIORITY_MATCH_ACTION {
      InStack(bases(u), LanFlows(u), ms, x);
      if b :| 0 <= b < |ms| && x in LanFlows(u)(ms[b]) {
        assert LanActive(w, table, ms, mrows, b);
        assert u in ms[b].lan.nodes;
        var i := OwnIngress(Rule(ms[b].lan, u), ms[b].cookies(u), ms[b].owns(u), x);
      }
    }
  }

  /** In every run of the rule manager in which no installation has failed, however many LANs and tunnels are active
      together: as long as they do not clash, every LAN floods and every tunnel delivers as if it were alone. */
  lemma SideBySide(w: Wiring, nodes: Nodes, edges: Links, table: Table, last: int, leaked: seq<Resource>,
                   ms: seq<LaidLan>, mrows: seq<nat>, ls: seq<Laid>, lrows: seq<nat>, bases: Tables)
    requires InForce(w, nodes, edges, table, last, leaked, ms, mrows, ls, lrows)
    requires forall u {:trigger bases(u)} :: E.Common(w, u, bases(u))
    ensures forall a, e, inner, dst :: 0 <= a < |ms| && e in ms[a].lan.endpoints ==>
              Floods(ms[a].lan, Deployed(w, bases, ms, ls), e, inner, dst)
    ensures forall i, back, inner, dst :: 0 <= i < |ls| && EdgePorts(w, ls[i]) ==>
              (Delivers(w, Deployed(w, bases, ms, ls), ls[i], back, inner, dst)
               <==> |ls[i].path| > 1 || ls[i].t.srcPort != ls[i].t.dstPort)
  {
    var tables := Deployed(w, bases, ms, ls);
    forall a, e, inner, dst | 0 <= a < |ms| && e in ms[a].lan.endpoints
      ensures Floods(ms[a].lan, tables, e, inner, dst)
    {
      LanBeside(w, nodes, edges, table, last, leaked, ms, mrows, ls, lrows, bases, a, e, inner, dst);
    }
    forall i, back, inner, dst | 0 <= i < |ls| && EdgePorts(w, ls[i])
      ensures Delivers(w, tables, ls[i], back, inner, dst)
         <==> |ls[i].path| > 1 || ls[i].t.srcPort != ls[i].t.dstPort
    {
      TunnelBeside(w, nodes, edges, table, last, leaked, ms, mrows, ls, lrows, bases, i, back, inner, dst);
    }
  }

  /** From the endpoint, the frame reaches every endpoint off its port once, crosses each tree edge once, and stops. */
  ghost predicate Floods(lan: Lan, tables: Tables, e: Endpoint, inner: seq<int>, dst: int) {
    Flood(lan.w, Pipelines(tables), e.switch, Frame(e.port, [e.vlan] + inner, dst), |lan.edges|)
    == Spread(DueElsewhere(lan.endpoints, e.switch, e.port, inner), multiset(lan.edges))
  }

  lemma LanBeside(w: Wiring, nodes: Nodes, edges: Links, table: Table, last: int, leaked: seq<Resource>,
                  ms: seq<LaidLan>, mrows: seq<nat>, ls: seq<Laid>, lrows: seq<nat>, bases: Tables, a: nat, e: Endpoint,
                  inner: seq<int>, dst: int)
    requires InForce(w, nodes, edges, table, last, leaked, ms, mrows, ls, lrows)
    requires forall u {:trigger bases(u)} :: E.Common(w, u, bases(u))
    requires a < |ms| && e in ms[a].lan.endpoints
    ensures Floods(ms[a].lan, Deployed(w, bases, ms, ls), e, inner, dst)
  {
    assert LanActive(w, table, ms, mrows, a);
    var m, tables := ms[a], Deployed(w, bases, ms, ls);
    forall u | u in m.lan.nodes ensures Serves(m.lan, m.cookies(u), m.owns(u), tables(u), u) {
      assert E.Common(w, u, bases(u));
      LanServed(w, nodes, edges, table, last, leaked, ms, mrows, ls, lrows, bases, a, u);
    }
    LanFloods(m.lan, m.cookies, m.owns, tables, e, inner, dst);
  }

  lemma TunnelBeside(w: Wiring, nodes: Nodes, edges: Links, table: Table, last: int, leaked: seq<Resource>,
                     ms: seq<LaidLan>, mrows: seq<nat>, ls: seq<Laid>, lrows: seq<nat>, bases: Tables, i: nat,
                     back: bool, inner: seq<int>, dst: int)
    requires InForce(w, nodes, edges, table, last, leaked, ms, mrows, ls, lrows)
    requires forall u {:trigger bases(u)} :: E.Common(w, u, bases(u))
    requires i < |ls| && EdgePorts(w, ls[i])
    ensures Delivers(w, Deployed(w, bases, ms, ls), ls[i], back, inner, dst)
       <==> |ls[i].path| > 1 || ls[i].t.srcPort != ls[i].t.dstPort
  {
    var below := BelowTunnels(bases, ms);
    forall u ensures Modest(below(u)) {
      assert E.Common(w, u, bases(u));
      BelowModest(w, table, ms, mrows, bases, u);
    }
    ModestHosts(w, ls, below, i);
    ActiveTunnelsDeliver(w, nodes, edges, table, last, leaked, ls, lrows, Deployed(w, bases, ms, ls), i, back, inner,
                         dst);
  }
}
