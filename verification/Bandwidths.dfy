/** What the active policies ask for on an edge, in terms of the tunnels and LANs themselves, adds up to at most the
    weight of the edge: no edge is promised twice. */
module Bandwidths {
  import opened Basics
  import opened Graphs
  import opened PathResources
  import opened TopologyManagers
  import opened RuleManagers
  import opened OpenFlow
  import opened L2Tunnels
  import opened TunnelIsolation
  import opened L2Multipoints
  import opened Flooding
  import opened Coexistence

  function Bit(b: bool): nat {
    if b then 1 else 0
  }

  // ----- Tunnels -----

  /** How often a tunnel uses an edge: on its path, and behind either end. */
  ghost function TunnelUses(w: Wiring, l: Laid, e: Edge): nat {
    Bit(Along(l.path, e)) + Bit(BehindPort(w, l.t.srcSwitch, l.t.srcPort, e))
      + Bit(BehindPort(w, l.t.dstSwitch, l.t.dstPort, e))
  }

  lemma OneCharge(w: Wiring, l: Laid, i: nat, e: Edge)
    requires LaidOk(w, l) && l.t.bandwidth >= 0 && i < 6
    ensures var rs := TunnelResources(l.t, l.path, l.iv);
            Sum(w, rs[..i + 1], Bw(e)) == Sum(w, rs[..i], Bw(e)) + BandwidthAsked(w, rs[i], e)
  {
    var rs := TunnelResources(l.t, l.path, l.iv);
    TunnelFormed(w, l.t, l.path, l.iv);
    assert rs[i] in rs;
    TakesExactly(w, rs[i], Bw(e));
    SumStep(w, rs, i, Bw(e));
  }

  /** A tunnel's resources take its bandwidth from an edge as often as it uses it. */
  lemma TunnelCharges(w: Wiring, l: Laid, e: Edge)
    requires LaidOk(w, l) && l.t.bandwidth >= 0
    ensures Sum(w, TunnelResources(l.t, l.path, l.iv), Bw(e)) == l.t.bandwidth * TunnelUses(w, l, e)
  {
    var rs, b, m := TunnelResources(l.t, l.path, l.iv), l.t.bandwidth, Bw(e);
    assert rs[..0] == [];
    OneCharge(w, l, 0, e);
    OneCharge(w, l, 1, e);
    OneCharge(w, l, 2, e);
    assert Sum(w, rs[..3], m) == 0;
    OneCharge(w, l, 3, e);
    OneCharge(w, l, 4, e);
    OneCharge(w, l, 5, e);
    assert rs[..6] == rs;
    ThreeBits(b, Along(l.path, e), BehindPort(w, l.t.srcSwitch, l.t.srcPort, e),
              BehindPort(w, l.t.dstSwitch, l.t.dstPort, e));
  }

  lemma ThreeBits(b: int, p: bool, q: bool, r: bool)
    ensures b * (Bit(p) + Bit(q) + Bit(r)) == (if p then b else 0) + (if q then b else 0) + (if r then b else 0)
  {
  }

  // ----- LANs -----

  /** How many of the endpoints have the edge behind their port. */
  ghost function EndsBehind(w: Wiring, ends: seq<Endpoint>, e: Edge): nat {
    if ends == [] then 0 else
      var last := ends[|ends| - 1];
      EndsBehind(w, ends[..|ends| - 1], e) + Bit(BehindPort(w, last.switch, last.port, e))
  }

  /** How often a LAN uses an edge: on its tree, and behind the first endpoint of each switch. */
  ghost function LanUses(w: Wiring, m: LaidLan, e: Edge): nat {
    Bit(Among(m.lan.hops, e)) + EndsBehind(w, Firsts(m.lan.endpoints), e)
  }

  lemma {:induction false} PortCharges(w: Wiring, firsts: seq<Endpoint>, b: int, e: Edge)
    requires b >= 0
    ensures Sum(w, PortResources(firsts, b), Bw(e)) == b * EndsBehind(w, firsts, e)
    decreases |firsts|
  {
    if firsts != [] {
      var front, last := firsts[..|firsts| - 1], firsts[|firsts| - 1];
      var vlan, bandwidth := VlanPort(last.switch, last.port, last.vlan), BandwidthPort(last.switch, last.port, b);
      PortCharges(w, front, b, e);
      TwoMore(w, PortResources(front, b), vlan, bandwidth, Bw(e));
      TakesExactly(w, vlan, Bw(e));
      TakesExactly(w, bandwidth, Bw(e));
      OneMoreBit(b, EndsBehind(w, front, e), BehindPort(w, last.switch, last.port, e));
    }
  }

  lemma OneMoreBit(b: int, n: nat, p: bool)
    ensures b * (n + Bit(p)) == b * n + if p then b else 0
  {
  }

  lemma TwoMore(w: Wiring, rs: seq<Resource>, x: Resource, y: Resource, m: Meter)
    ensures Sum(w, rs + [x, y], m) == Sum(w, rs, m) + Take(w, x, m) + Take(w, y, m)
  {
    assert rs + [x, y] == (rs + [x]) + [y];
    SumLast(w, rs, x, m);
    SumLast(w, rs + [x], y, m);
  }

  /** A LAN's resources take its bandwidth from an edge as often as it uses it. */
  lemma LanCharges(w: Wiring, m: LaidLan, e: Edge)
    requires Distinct(m.treeNodes) && DistinctEdges(m.lan.hops) && m.lan.bandwidth >= 0
    ensures Sum(w, LanResources(m), Bw(e)) == m.lan.bandwidth * LanUses(w, m, e)
  {
    var b, firsts := m.lan.bandwidth, Firsts(m.lan.endpoints);
    var vlan, tree := VlanTree(m.treeNodes, m.lan.hops, m.lan.iv), BandwidthTree(m.treeNodes, m.lan.hops, b);
    TreeCharges(w, m, e);
    SumAppend(w, [vlan, tree], PortResources(firsts, b), Bw(e));
    PortCharges(w, firsts, b, e);
    OneMoreBit(b, EndsBehind(w, firsts, e), Among(m.lan.hops, e));
  }

  lemma TreeCharges(w: Wiring, m: LaidLan, e: Edge)
    requires Distinct(m.treeNodes) && DistinctEdges(m.lan.hops) && m.lan.bandwidth >= 0
    ensures Sum(w, [VlanTree(m.treeNodes, m.lan.hops, m.lan.iv),
                    BandwidthTree(m.treeNodes, m.lan.hops, m.lan.bandwidth)], Bw(e))
         == if Among(m.lan.hops, e) then m.lan.bandwidth else 0
  {
    var vlan := VlanTree(m.treeNodes, m.lan.hops, m.lan.iv);
    var tree := BandwidthTree(m.treeNodes, m.lan.hops, m.lan.bandwidth);
    MultipointFormed(w, m.lan.endpoints, m.treeNodes, m.lan.hops, m.lan.iv, m.lan.bandwidth);
    assert LanResources(m)[0] == vlan && LanResources(m)[1] == tree;
    TwoMore(w, [], vlan, tree, Bw(e));
    assert [] + [vlan, tree] == [vlan, tree];
    TakesExactly(w, vlan, Bw(e));
    TakesExactly(w, tree, Bw(e));
  }

  /** The first endpoint on some switch has the edge behind its port. */
  ghost predicate SomeEndBehind(w: Wiring, ends: seq<Endpoint>, e: Edge) {
    exists i :: 0 <= i < |ends| && EndAt(w, ends, i, e)
  }

  predicate EndAt(w: Wiring, ends: seq<Endpoint>, i: int, e: Edge) {
    0 <= i < |ends| && BehindPort(w, ends[i].switch, ends[i].port, e)
  }

  /** Endpoints on different switches, on ports that lead to no switch. */
  ghost predicate EndsOut(w: Wiring, ends: seq<Endpoint>) {
    Distinct(Switches(ends)) &&
    forall i {:trigger ends[i]} :: 0 <= i < |ends| ==>
      ends[i].switch in w && Across(w, ends[i].switch, ends[i].port) == None
  }

  lemma DifferentEdges(w: Wiring, a: Endpoint, b: Endpoint, e: Edge)
    requires WiringOk(w) && a.switch in w && b.switch in w && a.switch != b.switch
    requires Across(w, a.switch, a.port) == None && BehindPort(w, a.switch, a.port, e)
    ensures !BehindPort(w, b.switch, b.port, e)
  {
    if BehindPort(w, b.switch, b.port, e) {
      var n, n' := PortNeighbor(w, a.switch, a.port).value, PortNeighbor(w, b.switch, b.port).value;
      PairInjective(a.switch, n, b.switch, n');
      NeighborLinked(w, b.switch, b.port);
    }
  }

  lemma NeighborLinked(w: Wiring, u: Node, p: int)
    requires u in w && PortNeighbor(w, u, p).Some?
    ensures Linked(w, u, PortNeighbor(w, u, p).value)
  {
    FirstOnIndex(w[u], p);
    FirstToFinds(w[u], PortNeighbor(w, u, p).value);
  }

  lemma {:induction false} EndsBehindOnce(w: Wiring, ends: seq<Endpoint>, e: Edge)
    requires WiringOk(w) && EndsOut(w, ends)
    ensures EndsBehind(w, ends, e) == Bit(SomeEndBehind(w, ends, e))
    decreases |ends|
  {
    if ends != [] {
      var front, last := ends[..|ends| - 1], ends[|ends| - 1];
      assert forall i :: 0 <= i < |front| ==> front[i] == ends[i] && Switches(front)[i] == Switches(ends)[i];
      EndsBehindOnce(w, front, e);
      if i :| 0 <= i < |front| && EndAt(w, front, i, e) {
        assert EndAt(w, ends, i, e) && Switches(ends)[i] != Switches(ends)[|front|];
        DifferentEdges(w, ends[i], last, e);
      }
      if BehindPort(w, last.switch, last.port, e) { assert EndAt(w, ends, |front|, e); }
      if i :| 0 <= i < |ends| && EndAt(w, ends, i, e) {
        if i < |front| { assert EndAt(w, front, i, e); }
      }
    }
  }

  lemma {:induction false} FirstsOut(endpoints: seq<Endpoint>, i: nat)
    requires i < |Firsts(endpoints)|
    ensures exists k :: 0 <= k < |endpoints| && endpoints[k] == Firsts(endpoints)[i]
    decreases |endpoints|
  {
    var front := endpoints[..|endpoints| - 1];
    if i < |Firsts(front)| {
      FirstsOut(front, i);
      var k :| 0 <= k < |front| && front[k] == Firsts(front)[i];
      assert endpoints[k] == Firsts(endpoints)[i];
    }
  }

  /** A LAN takes its bandwidth once from every edge of its tree and from the edge behind the first endpoint on each
      switch, and nothing from any other edge. */
  lemma LanTakesOnce(m: LaidLan, e: Edge)
    requires LanOk(m.lan) && Distinct(m.treeNodes) && m.lan.bandwidth >= 0
    ensures Sum(m.lan.w, LanResources(m), Bw(e))
         == if e in m.lan.edges || SomeEndBehind(m.lan.w, Firsts(m.lan.endpoints), e) then m.lan.bandwidth else 0
  {
    var w, ends, b := m.lan.w, Firsts(m.lan.endpoints), m.lan.bandwidth;
    LanCharges(w, m, e);
    FirstsAtEdge(m.lan);
    EndsBehindOnce(w, ends, e);
    TreeEdgesAre(m.lan, e);
    if SomeEndBehind(w, ends, e) { EndsNotOnTree(m.lan, e); }
    OneMoreBit(b, 0, e in m.lan.edges || SomeEndBehind(w, ends, e));
  }

  lemma FirstsAtEdge(lan: Lan)
    requires LanOk(lan)
    ensures EndsOut(lan.w, Firsts(lan.endpoints))
  {
    var ends := Firsts(lan.endpoints);
    FirstsCover(lan.endpoints);
    forall i | 0 <= i < |ends| ensures ends[i].switch in lan.w && Across(lan.w, ends[i].switch, ends[i].port) == None {
      FirstsOut(lan.endpoints, i);
      var k :| 0 <= k < |lan.endpoints| && lan.endpoints[k] == ends[i];
      EndpointEdge(lan, k);
    }
  }

  lemma EndsNotOnTree(lan: Lan, e: Edge)
    requires LanOk(lan) && SomeEndBehind(lan.w, Firsts(lan.endpoints), e)
    ensures e !in lan.edges
  {
    var ends := Firsts(lan.endpoints);
    FirstsAtEdge(lan);
    var i :| 0 <= i < |ends| && EndAt(lan.w, ends, i, e);
    NotOnTree(lan, ends[i], e);
  }

  lemma TreeEdgesAre(lan: Lan, e: Edge)
    requires LanOk(lan)
    ensures Among(lan.hops, e) <==> e in lan.edges
  {
    assert e in lan.edges <==> Listed(lan.hops, e);
    if h :| h in lan.hops && Crosses(h, e) {
      var i :| 0 <= i < |lan.hops| && lan.hops[i] == h;
      assert Crosses(lan.hops[i], e);
    }
    if i :| 0 <= i < |lan.hops| && Crosses(lan.hops[i], e) { assert lan.hops[i] in lan.hops; }
  }

  lemma NotOnTree(lan: Lan, a: Endpoint, e: Edge)
    requires LanOk(lan) && a.switch in lan.w && Across(lan.w, a.switch, a.port) == None
    requires BehindPort(lan.w, a.switch, a.port, e)
    ensures e !in lan.edges
  {
    if e in lan.edges { EdgeLink(lan, a.switch, PortNeighbor(lan.w, a.switch, a.port).value); }
  }

  // ----- All active policies together -----

  /** What a row of the rule table is. */
  datatype Policy = IsTunnel(l: Laid) | IsLan(m: LaidLan) | SomethingElse

  /** While the row is active it holds what the policy asks for. */
  ghost predicate Describes(w: Wiring, row: Record, p: Policy) {
    row.state == Active ==>
      match p
      case IsTunnel(l) => LaidOk(w, l) && row.resources == TunnelResources(l.t, l.path, l.iv)
      case IsLan(m) => Distinct(m.treeNodes) && DistinctEdges(m.lan.hops) && row.resources == LanResources(m)
      case SomethingElse => true
  }

  /** The bandwidth that a row asks for on an edge. */
  ghost function Wants(w: Wiring, row: Record, p: Policy, e: Edge): int {
    if row.state != Active then 0 else
      match p
      case IsTunnel(l) => l.t.bandwidth * TunnelUses(w, l, e)
      case IsLan(m) => m.lan.bandwidth * LanUses(w, m, e)
      case SomethingElse => 0
  }

  ghost predicate AllDescribed(w: Wiring, table: Table, ps: seq<Policy>) {
    |ps| == |table| &&
    forall i {:trigger Describes(w, table[i], ps[i])} :: 0 <= i < |table| ==> Describes(w, table[i], ps[i])
  }

  /** And all rows together. */
  ghost function Load(w: Wiring, table: Table, ps: seq<Policy>, e: Edge): int
    requires |ps| == |table|
  {
    if table == [] then 0 else
      var n := |table| - 1;
      Load(w, table[..n], ps[..n], e) + Wants(w, table[n], ps[n], e)
  }

  /** A known row holds what it asks for. */
  lemma RowHolds(w: Wiring, row: Record, p: Policy, e: Edge)
    requires Describes(w, row, p) && forall x :: x in row.resources ==> WellFormed(w, x)
    ensures row.state == Active ==> 0 <= Wants(w, row, p, e) <= Sum(w, row.resources, Bw(e))
    ensures row.state == Active && !p.SomethingElse? ==> Wants(w, row, p, e) == Sum(w, row.resources, Bw(e))
  {
    SumSign(w, row.resources, Bw(e));
    if row.state == Active {
      match p
      case IsTunnel(l) =>
        assert WellFormed(w, row.resources[3]);
        TunnelCharges(w, l, e);
      case IsLan(m) =>
        assert WellFormed(w, row.resources[1]);
        LanCharges(w, m, e);
      case SomethingElse =>
    }
  }

  lemma LastRowHolds(w: Wiring, table: Table, m: Meter)
    requires table != []
    ensures var n := |table| - 1;
            Sum(w, ActiveResources(table), m) == Sum(w, ActiveResources(table[..n]), m)
              + if table[n].state == Active then Sum(w, table[n].resources, m) else 0
  {
    var n := |table| - 1;
    if table[n].state == Active {
      SumAppend(w, ActiveResources(table[..n]), table[n].resources, m);
    } else {
      assert ActiveResources(table[..n]) + [] == ActiveResources(table[..n]);
    }
  }

  lemma {:induction false} LoadHeld(w: Wiring, table: Table, ps: seq<Policy>, e: Edge)
    requires AllDescribed(w, table, ps) && forall r, x :: r in table && x in r.resources ==> WellFormed(w, x)
    ensures Load(w, table, ps, e) <= Sum(w, ActiveResources(table), Bw(e))
    ensures SomethingElse !in ps ==> Load(w, table, ps, e) == Sum(w, ActiveResources(table), Bw(e))
    decreases |table|
  {
    if table != [] {
      var n := |table| - 1;
      var row, p := table[n], ps[n];
      assert row in table && Describes(w, row, p) && p in ps;
      forall i | 0 <= i < n ensures Describes(w, table[..n][i], ps[..n][i]) { assert Describes(w, table[i], ps[i]); }
      LoadHeld(w, table[..n], ps[..n], e);
      RowHolds(w, row, p, e);
      LastRowHolds(w, table, Bw(e));
    }
  }

  /** In every run of the rule manager in which no installation has failed: what all active tunnels and LANs ask for on
      an edge adds up to at most its weight; and, once nothing has leaked and every rule is one of them, it is exactly
      what the edge's counter shows. */
  lemma NoOverbooking(w: Wiring, nodes: Nodes, edges: Links, table: Table, last: int, leaked: seq<Resource>,
                      ps: seq<Policy>, e: Edge)
    requires BooksOk(w, nodes, edges, table, last, leaked, []) && AllDescribed(w, table, ps) && e in edges
    ensures Load(w, table, ps, e) <= edges[e].bwInUse <= edges[e].weight
    ensures leaked == [] && SomethingElse !in ps ==> Load(w, table, ps, e) == edges[e].bwInUse
  {
    forall r, x | r in table && x in r.resources ensures WellFormed(w, x) { assert RowOk(w, r, last); }
    LoadHeld(w, table, ps, e);
    SumSign(w, leaked, Bw(e));
    assert Read(nodes, edges, Bw(e)) + Sum(w, [], Bw(e))
        == Sum(w, ActiveResources(table), Bw(e)) + Sum(w, leaked, Bw(e));
    assert Read(nodes, edges, Bw(e)) <= Capacity(edges, Bw(e));
  }
}
