/** Tunnels that are active at the same time do not listen in the same place, because each place they
    listen in is covered by a VLAN reservation; the only exception is a port that leads nowhere. */
module TunnelIsolation {
  import opened Basics
  import opened Graphs
  import opened PathResources
  import opened TopologyManagers
  import opened RuleManagers
  import opened OpenFlow
  import opened L2Tunnels

  /** The resource that covers a slot. */
  function Cover(s: Slot): nat {
    match s
    case SrcIn => 1
    case DstIn => 2
    case _ => 0
  }

  lemma TimesHas(pairs: seq<Hop>, i: nat)
    requires i < |pairs|
    ensures Times(pairs, 1, Pair(pairs[i].0, pairs[i].1)) >= 1
  {
    var e := Pair(pairs[i].0, pairs[i].1);
    TimesMono(pairs, i, e);
    TimesStep(pairs, i, 1, e);
    TimesMono(pairs, i + 1, e);
  }

  /** A transit port leads to the next switch of the path. */
  lemma TransitNeighbor(w: Wiring, t: Tunnel, path: seq<Node>, iv: int, s: Slot) returns (i: nat)
    requires WiringOk(w) && PathOk(w, t, path) && Used(path, s) && s != SrcIn && s != DstIn
    ensures i < |Hops(path)| && KeyOf(w, t, path, iv, s).vlan == iv
    ensures PortNeighbor(w, KeyOf(w, t, path, iv, s).switch, KeyOf(w, t, path, iv, s).port).Some?
    ensures var k := KeyOf(w, t, path, iv, s);
            Pair(Hops(path)[i].0, Hops(path)[i].1) == Pair(k.switch, PortNeighbor(w, k.switch, k.port).value)
  {
    var n := |path|;
    match s {
      case SrcOut => i := 0; assert HopOk(w, path, 0); PortAndNeighbor(w, path[0], path[1]);
      case DstOut => i := n - 2; assert HopOk(w, path, n - 2); PortAndNeighbor(w, path[n - 1], path[n - 2]);
      case MidIn(k) => i := k - 1; assert HopOk(w, path, k - 1); PortAndNeighbor(w, path[k], path[k - 1]);
      case MidOut(k) => i := k; assert HopOk(w, path, k); PortAndNeighbor(w, path[k], path[k + 1]);
    }
  }

  /** Wherever a tunnel listens on a port that leads somewhere, it has reserved the VLAN it listens to
      on the edge behind that port. */
  lemma ListeningReserved(w: Wiring, t: Tunnel, path: seq<Node>, iv: int, s: Slot, n: Node)
    requires WiringOk(w) && PathOk(w, t, path) && Used(path, s)
    requires KeyOf(w, t, path, iv, s).switch in w
    requires PortNeighbor(w, KeyOf(w, t, path, iv, s).switch, KeyOf(w, t, path, iv, s).port) == Some(n)
    ensures var k := KeyOf(w, t, path, iv, s);
            Take(w, TunnelResources(t, path, iv)[Cover(s)], EdgeVlan(Pair(k.switch, n), k.vlan)) >= 1
  {
    var k := KeyOf(w, t, path, iv, s);
    var r := TunnelResources(t, path, iv)[Cover(s)];
    if s == SrcIn || s == DstIn {
      assert PairsOf(w, r) == [(k.switch, n)];
      TimesHas([(k.switch, n)], 0);
    } else {
      var i := TransitNeighbor(w, t, path, iv, s);
      assert PairsOf(w, r) == Hops(path);
      TimesHas(Hops(path), i);
    }
  }

  // ----- Two reservations of active rules -----

  lemma Position(table: Table, i: nat, x: nat) returns (a: nat)
    requires i < |table| && table[i].state == Active && x < |table[i].resources|
    ensures a == |ActiveResources(table[..i])| + x
    ensures a < |ActiveResources(table)| && ActiveResources(table)[a] == table[i].resources[x]
    ensures a < |ActiveResources(table[..i + 1])|
  {
    a := |ActiveResources(table[..i])| + x;
    assert table[..i + 1] == table[..i] + [table[i]];
    ActiveAppend(table[..i], table[i]);
    assert table == table[..i + 1] + table[i + 1..];
    ActiveConcat(table[..i + 1], table[i + 1..]);
  }

  lemma PrefixShorter(table: Table, i: nat, j: nat)
    requires i <= j <= |table|
    ensures |ActiveResources(table[..i])| <= |ActiveResources(table[..j])|
  {
    assert table[..j] == table[..i] + table[i..j];
    ActiveConcat(table[..i], table[i..j]);
  }

  /** Two different resources of active rules never take the same VLAN in the same place. */
  lemma Exclusive(w: Wiring, nodes: Nodes, edges: Links, table: Table, last: int, leaked: seq<Resource>,
                  i: nat, x: nat, j: nat, y: nat, m: Meter)
    requires BooksOk(w, nodes, edges, table, last, leaked, []) && !m.Bw?
    requires i < |table| && table[i].state == Active && x < |table[i].resources|
    requires j < |table| && table[j].state == Active && y < |table[j].resources|
    requires i != j || x != y
    ensures Take(w, table[i].resources[x], m) + Take(w, table[j].resources[y], m) <= 1
  {
    var a := Position(table, i, x);
    var b := Position(table, j, y);
    if i < j { PrefixShorter(table, i + 1, j); }
    if j < i { PrefixShorter(table, j + 1, i); }
    if a < b {
      ExclusiveVlans(w, nodes, edges, table, last, leaked, a, b, m);
    } else {
      ExclusiveVlans(w, nodes, edges, table, last, leaked, b, a, m);
    }
  }

  // ----- Isolation -----

  /** A tunnel together with the way it was given. */
  datatype Laid = Laid(t: Tunnel, path: seq<Node>, iv: int, cookie: int)

  ghost predicate LaidOk(w: Wiring, l: Laid) {
    PathOk(w, l.t, l.path)
  }

  ghost predicate AllLaid(w: Wiring, ls: seq<Laid>) {
    forall i :: 0 <= i < |ls| ==> LaidOk(w, ls[i])
  }

  ghost function LaidKey(w: Wiring, l: Laid, s: Slot): Key
    requires LaidOk(w, l) && Used(l.path, s)
  {
    KeyOf(w, l.t, l.path, l.iv, s)
  }

  /** The rule of row i is this tunnel, and it is active. */
  predicate ActiveTunnel(table: Table, i: nat, l: Laid) {
    i < |table| && table[i].state == Active && table[i].resources == TunnelResources(l.t, l.path, l.iv)
  }

  /** Nothing is at the other end of the port, so nothing is reserved for it. */
  predicate Dangling(w: Wiring, k: Key) {
    k.switch in w && PortNeighbor(w, k.switch, k.port).None?
  }

  /** If two slots of active tunnels match the same frames, then they are endpoints on a port that leads
      nowhere. */
  lemma SameKeyDangles(w: Wiring, nodes: Nodes, edges: Links, table: Table, last: int, leaked: seq<Resource>,
                       i: nat, l: Laid, s: Slot, j: nat, l': Laid, s': Slot)
    requires WiringOk(w) && BooksOk(w, nodes, edges, table, last, leaked, [])
    requires LaidOk(w, l) && ActiveTunnel(table, i, l) && Used(l.path, s)
    requires LaidOk(w, l') && ActiveTunnel(table, j, l') && Used(l'.path, s')
    requires (i != j || (l == l' && s != s')) && LaidKey(w, l, s) == LaidKey(w, l', s')
    ensures Dangling(w, LaidKey(w, l, s)) && (s == SrcIn || s == DstIn) && (s' == SrcIn || s' == DstIn)
  {
    var k := LaidKey(w, l, s);
    assert k.switch in w;
    if PortNeighbor(w, k.switch, k.port).Some? {
      var n := PortNeighbor(w, k.switch, k.port).value;
      var m := EdgeVlan(Pair(k.switch, n), k.vlan);
      ListeningReserved(w, l.t, l.path, l.iv, s, n);
      ListeningReserved(w, l'.t, l'.path, l'.iv, s', n);
      if i == j && Cover(s) == Cover(s') {
        TransitKeysDiffer(w, l, s, s');
      } else {
        Exclusive(w, nodes, edges, table, last, leaked, i, Cover(s), j, Cover(s'), m);
      }
      assert false;
    }
    if s != SrcIn && s != DstIn { var h := TransitNeighbor(w, l.t, l.path, l.iv, s); }
    if s' != SrcIn && s' != DstIn { var h := TransitNeighbor(w, l'.t, l'.path, l'.iv, s'); }
  }

  /** Along one simple path, different transit slots listen in different places. */
  lemma TransitKeysDiffer(w: Wiring, l: Laid, s: Slot, s': Slot)
    requires WiringOk(w) && LaidOk(w, l) && Used(l.path, s) && Used(l.path, s') && s != s'
    requires Cover(s) == Cover(s')
    ensures LaidKey(w, l, s) != LaidKey(w, l, s')
  {
    var a, b := Toward(l.path, s), Toward(l.path, s');
    TowardIsNeighbor(w, l, s);
    TowardIsNeighbor(w, l, s');
    assert a.0 != b.0 || a.1 != b.1;
  }

  /** For a transit slot: the position of its switch, and of the switch its port leads to. */
  function Toward(path: seq<Node>, s: Slot): (nat, nat)
    requires Used(path, s) && s != SrcIn && s != DstIn
  {
    match s
    case SrcOut => (0, 1)
    case DstOut => (|path| - 1, |path| - 2)
    case MidIn(i) => (i, i - 1)
    case MidOut(i) => (i, i + 1)
  }

  lemma TowardIsNeighbor(w: Wiring, l: Laid, s: Slot)
    requires WiringOk(w) && LaidOk(w, l) && Used(l.path, s) && s != SrcIn && s != DstIn
    ensures var k := LaidKey(w, l, s);
            && var (i, j) := Toward(l.path, s);
            && i < |l.path| && j < |l.path| && k.switch == l.path[i] && k.switch in w
            && PortNeighbor(w, k.switch, k.port) == Some(l.path[j])
  {
    var (i, j) := Toward(l.path, s);
    assert Linked(w, l.path[i], l.path[j]) by {
      assert HopOk(w, l.path, if j < i then j else i);
    }
    PortAndNeighbor(w, l.path[i], l.path[j]);
  }

  ghost predicate SharesKey(w: Wiring, l: Laid, l': Laid, s: Slot, s': Slot)
    requires LaidOk(w, l) && LaidOk(w, l')
  {
    Used(l.path, s) && Used(l'.path, s') && LaidKey(w, l, s) == LaidKey(w, l', s')
  }

  predicate IsEnd(s: Slot) {
    s == SrcIn || s == DstIn
  }

  /** Two ends of tunnels are the same endpoint, on a port that leads nowhere. */
  ghost predicate SharesEnd(w: Wiring, l: Laid, l': Laid, s: Slot, s': Slot)
    requires LaidOk(w, l) && LaidOk(w, l')
  {
    IsEnd(s) && IsEnd(s') && SharesKey(w, l, l', s, s') && Dangling(w, LaidKey(w, l, s))
  }

  /** Two active tunnels interfere, that is, some frame is matched by rules of both, if and only if they
      share an endpoint (switch, port and VLAN) on a port that leads nowhere. */
  lemma InterfereIff(w: Wiring, nodes: Nodes, edges: Links, table: Table, last: int, leaked: seq<Resource>,
                     i: nat, l: Laid, j: nat, l': Laid)
    requires WiringOk(w) && BooksOk(w, nodes, edges, table, last, leaked, [])
    requires LaidOk(w, l) && ActiveTunnel(table, i, l) && LaidOk(w, l') && ActiveTunnel(table, j, l') && i != j
    ensures (exists s, s' :: SharesKey(w, l, l', s, s'))
       <==> (exists s, s' :: SharesEnd(w, l, l', s, s'))
  {
    if s, s' :| SharesEnd(w, l, l', s, s') { assert SharesKey(w, l, l', s, s'); }
    if s, s' :| SharesKey(w, l, l', s, s') {
      SameKeyDangles(w, nodes, edges, table, last, leaked, i, l, s, j, l', s');
      assert SharesEnd(w, l, l', s, s');
    }
  }

  /** Two tunnels that do interfere: both start at port 1 of a switch on VLAN 10, and nothing is known to be behind
      that port. */
  function Rivals(a: Node): (Laid, Laid) {
    (Laid(Tunnel(a, 1, 10, a, 2, 20, 0), [a], 1, 1), Laid(Tunnel(a, 1, 10, a, 3, 30, 0), [a], 2, 2))
  }

  function RivalTable(a: Node): Table {
    var (l, l') := Rivals(a);
    [Record(1, Active, None, None, TunnelResources(l.t, l.path, l.iv)),
     Record(2, Active, None, None, TunnelResources(l'.t, l'.path, l'.iv))]
  }

  /** A tunnel within a switch without neighbours takes its intermediate VLAN there and nothing else. */
  lemma LonelySum(a: Node, t: Tunnel, iv: int, m: Meter)
    requires t.srcSwitch == a && t.dstSwitch == a && t.bandwidth >= 0
    ensures Sum(map[a := []], TunnelResources(t, [a], iv), m) == if m == NodeVlan(a, iv) then 1 else 0
  {
    var w: Wiring := map[a := []];
    var rs := TunnelResources(t, [a], iv);
    assert rs == [rs[0]] + rs[1..];
    SumAppend(w, [rs[0]], rs[1..], m);
    SumOne(w, rs[0], m);
    OccursOne(a, m);
    forall r | r in rs[1..] ensures Idle(w, r) && WellFormed(w, r) {
      LonelyIdle(a, t, iv, r);
    }
    IdleSum(w, rs[1..], m);
  }

  lemma LonelyIdle(a: Node, t: Tunnel, iv: int, r: Resource)
    requires t.srcSwitch == a && t.dstSwitch == a && t.bandwidth >= 0 && r in TunnelResources(t, [a], iv)[1..]
    ensures Idle(map[a := []], r) && WellFormed(map[a := []], r)
  {
    assert PairsOf(map[a := []], r) == [];
  }

  lemma OccursOne(a: Node, m: Meter)
    ensures m.NodeVlan? ==> Occurs([a], m.n) == if m.n == a then 1 else 0
  {
    if m.NodeVlan? { OccursDistinct([a], m.n); }
  }

  lemma IdleSum(w: Wiring, rs: seq<Resource>, m: Meter)
    requires AllIdle(w, rs) && forall r :: r in rs ==> WellFormed(w, r)
    ensures Sum(w, rs, m) == 0
  {
    AllIdleIff(w, rs);
  }

  lemma LonelyOk(a: Node, l: Laid)
    requires l.t.srcSwitch == a && l.t.dstSwitch == a && l.t.bandwidth >= 0 && l.path == [a]
    ensures WiringOk(map[a := []]) && LaidOk(map[a := []], l)
  {
    assert CablesOk(map[a := []], a);
  }

  lemma RivalRows(a: Node)
    ensures var (l, l') := Rivals(a);
            ActiveResources(RivalTable(a)) == TunnelResources(l.t, l.path, l.iv) + TunnelResources(l'.t, l'.path, l'.iv)
    ensures forall r :: r in RivalTable(a) ==> RowOk(map[a := []], r, 2)
  {
    var (l, l') := Rivals(a);
    LonelyOk(a, l);
    LonelyOk(a, l');
    TunnelFormed(map[a := []], l.t, l.path, l.iv);
    TunnelFormed(map[a := []], l'.t, l'.path, l'.iv);
    TwoRows(RivalTable(a)[0], RivalTable(a)[1]);
  }

  lemma TwoRows(r: Record, r': Record)
    requires r.state == Active && r'.state == Active
    ensures ActiveResources([r, r']) == r.resources + r'.resources
  {
    assert [r, r'] == [r] + [r'] && [r][..0] == [];
    ActiveAppend([r], r');
    assert ActiveResources([r]) == [] + r.resources;
  }

  lemma LonelyPlaced(a: Node, l: Laid, x: Resource)
    requires l.t.srcSwitch == a && l.t.dstSwitch == a && l.path == [a] && x in TunnelResources(l.t, l.path, l.iv)
    ensures Placed(map[a := []], map[a := NodeInfo(true, [1, 2])], map[], x)
  {
    assert PairsOf(map[a := []], x) == [];
  }

  lemma RivalBooks(a: Node)
    ensures BooksOk(map[a := []], map[a := NodeInfo(true, [1, 2])], map[], RivalTable(a), 2, [], [])
  {
    var w: Wiring, nodes: Nodes, edges: Links := map[a := []], map[a := NodeInfo(true, [1, 2])], map[];
    var (l, l') := Rivals(a);
    var rs, rs' := TunnelResources(l.t, l.path, l.iv), TunnelResources(l'.t, l'.path, l'.iv);
    RivalRows(a);
    forall m ensures Read(nodes, edges, m) == Sum(w, rs + rs', m) {
      LonelySum(a, l.t, l.iv, m);
      LonelySum(a, l'.t, l'.iv, m);
      SumAppend(w, rs, rs', m);
    }
    forall x | x in rs + rs' ensures Placed(w, nodes, edges, x) {
      LonelyPlaced(a, if x in rs then l else l', x);
    }
  }

  /** With both active the books are in order and nothing is owed, yet they listen in the same place. */
  lemma RivalsShare(a: Node)
    ensures var w: Wiring, nodes: Nodes, edges: Links := map[a := []], map[a := NodeInfo(true, [1, 2])], map[];
            var (l, l') := Rivals(a);
            && WiringOk(w) && LaidOk(w, l) && LaidOk(w, l')
            && BooksOk(w, nodes, edges, RivalTable(a), 2, [], [])
            && ActiveTunnel(RivalTable(a), 0, l) && ActiveTunnel(RivalTable(a), 1, l')
            && SharesKey(w, l, l', SrcIn, SrcIn)
  {
    LonelyOk(a, Rivals(a).0);
    LonelyOk(a, Rivals(a).1);
    RivalBooks(a);
  }

  /** No two rules of one active tunnel interfere either, unless both its ends are the same dangling
      endpoint. */
  lemma OwnKeysApart(w: Wiring, nodes: Nodes, edges: Links, table: Table, last: int, leaked: seq<Resource>,
                     i: nat, l: Laid, s: Slot, s': Slot)
    requires WiringOk(w) && BooksOk(w, nodes, edges, table, last, leaked, [])
    requires LaidOk(w, l) && ActiveTunnel(table, i, l) && s != s' && SharesKey(w, l, l, s, s')
    ensures IsEnd(s) && IsEnd(s') && Dangling(w, LaidKey(w, l, s))
  {
    SameKeyDangles(w, nodes, edges, table, last, leaked, i, l, s, i, l, s');
  }
}
