/** The resources a rule asks for, and what each of them takes from every node and edge. */
module PathResources {
  import opened Basics
  import opened Graphs

  type Hop = (Node, Node)

  datatype Resource =
    | VlanPort(switch: Node, port: int, vlan: int)
    | VlanPath(path: seq<Node>, vlan: int)
    | VlanTree(nodes: seq<Node>, edges: seq<Hop>, vlan: int)
    | BandwidthPort(switch: Node, port: int, bandwidth: int)
    | BandwidthPath(path: seq<Node>, bandwidth: int)
    | BandwidthTree(nodes: seq<Node>, edges: seq<Hop>, bandwidth: int)
  {
    predicate IsVlan() {
      VlanPort? || VlanPath? || VlanTree?
    }

    function Value(): int {
      if IsVlan() then vlan else bandwidth
    }

    predicate OnPort() {
      VlanPort? || BandwidthPort?
    }
  }

  /** One cable as a switch sees it: who is at the other end, and the local port it is plugged into. */
  datatype Cable = Cable(neighbor: Node, port: int)

  /** How the switches are cabled, each switch's cables in the order the topology lists them. */
  type Wiring = map<Node, seq<Cable>>

  /** The first listed neighbour reached through a port. */
  function FirstOn(cables: seq<Cable>, port: int): Option<Node> {
    if cables == [] then None
    else if cables[0].port == port then Some(cables[0].neighbor)
    else FirstOn(cables[1..], port)
  }

  function PortNeighbor(w: Wiring, switch: Node, port: int): Option<Node>
    requires switch in w
  {
    FirstOn(w[switch], port)
  }

  /** Consecutive pairs of a path. */
  function Hops(path: seq<Node>): (h: seq<Hop>)
    ensures |path| == 0 ==> h == []
    ensures |path| > 0 ==> |h| == |path| - 1 && forall i :: 0 <= i < |h| ==> h[i] == (path[i], path[i + 1])
  {
    if |path| <= 1 then [] else seq(|path| - 1, i requires 0 <= i < |path| - 1 => (path[i], path[i + 1]))
  }

  function PairsOf(w: Wiring, r: Resource): seq<Hop> {
    match r
    case VlanPort(s, p, _) => PortPairs(w, s, p)
    case BandwidthPort(s, p, _) => PortPairs(w, s, p)
    case VlanPath(path, _) => Hops(path)
    case BandwidthPath(path, _) => Hops(path)
    case VlanTree(_, edges, _) => edges
    case BandwidthTree(_, edges, _) => edges
  }

  function PortPairs(w: Wiring, s: Node, p: int): seq<Hop> {
    if s in w && PortNeighbor(w, s, p).Some? then [(s, PortNeighbor(w, s, p).value)] else []
  }

  /** Only path and tree VLANs are reserved on nodes; a port reservation leaves the switch alone. */
  function NodesOf(r: Resource): seq<Node> {
    match r
    case VlanPath(path, _) => path
    case VlanTree(nodes, _, _) => nodes
    case _ => []
  }

  /** Asking for a port of an unknown switch raises. */
  predicate Known(w: Wiring, r: Resource) {
    r.OnPort() ==> r.switch in w
  }

  predicate Crosses(h: Hop, e: Edge) {
    Pair(h.0, h.1) == e
  }

  // ----- Meters: everything the topology counts -----

  /** One counter of the topology: the bandwidth in use on an edge, or how often a VLAN is listed as
      in use on an edge or on a node. */
  datatype Meter = Bw(e: Edge) | EdgeVlan(e: Edge, v: int) | NodeVlan(n: Node, v: int)

  /** b once for every listed pair that is the edge e. */
  function Times(pairs: seq<Hop>, b: int, e: Edge): int {
    if pairs == [] then 0 else
      Times(pairs[..|pairs| - 1], b, e) + if Crosses(pairs[|pairs| - 1], e) then b else 0
  }

  function Occurs(nodes: seq<Node>, n: Node): nat {
    if nodes == [] then 0 else
      Occurs(nodes[..|nodes| - 1], n) + if nodes[|nodes| - 1] == n then 1 else 0
  }

  /** What reserving VLAN v on the listed nodes and pairs adds to a meter. */
  function VlanTake(nodes: seq<Node>, pairs: seq<Hop>, v: int, m: Meter): int {
    match m
    case Bw(_) => 0
    case EdgeVlan(e, u) => if u == v then Times(pairs, 1, e) else 0
    case NodeVlan(n, u) => if u == v then Occurs(nodes, n) else 0
  }

  function BwTake(pairs: seq<Hop>, b: int, m: Meter): int {
    if m.Bw? then Times(pairs, b, m.e) else 0
  }

  function Take(w: Wiring, r: Resource, m: Meter): int {
    if r.IsVlan() then VlanTake(NodesOf(r), PairsOf(w, r), r.Value(), m) else BwTake(PairsOf(w, r), r.Value(), m)
  }

  function Sum(w: Wiring, rs: seq<Resource>, m: Meter): int {
    if rs == [] then 0 else Sum(w, rs[..|rs| - 1], m) + Take(w, rs[|rs| - 1], m)
  }

  /** What a resource, or a list of them, adds to each meter, and what giving it back does. */
  function TakeOf(w: Wiring, r: Resource): Meter -> int {
    m => Take(w, r, m)
  }

  function SumOf(w: Wiring, rs: seq<Resource>): Meter -> int {
    m => Sum(w, rs, m)
  }

  function MinusTake(w: Wiring, r: Resource): Meter -> int {
    m => -Take(w, r, m)
  }

  function MinusSum(w: Wiring, rs: seq<Resource>): Meter -> int {
    m => -Sum(w, rs, m)
  }

  predicate DistinctEdges(pairs: seq<Hop>) {
    forall i, j :: 0 <= i < j < |pairs| ==> Pair(pairs[i].0, pairs[i].1) != Pair(pairs[j].0, pairs[j].1)
  }

  /** What a resource taken from a simple path, a tree or a port looks like. */
  predicate WellFormed(w: Wiring, r: Resource) {
    DistinctEdges(PairsOf(w, r)) && Distinct(NodesOf(r)) && (r.IsVlan() || r.Value() >= 0)
  }

  /** A port reservation names at most one edge. */
  lemma PortFormed(w: Wiring, r: Resource)
    requires r.OnPort() && (r.IsVlan() || r.Value() >= 0)
    ensures WellFormed(w, r)
  {
  }

  lemma SumLast(w: Wiring, rs: seq<Resource>, r: Resource, m: Meter)
    ensures Sum(w, rs + [r], m) == Sum(w, rs, m) + Take(w, r, m)
  {
    assert (rs + [r])[..|rs|] == rs;
  }

  lemma {:induction false} SumAppend(w: Wiring, a: seq<Resource>, b: seq<Resource>, m: Meter)
    ensures Sum(w, a + b, m) == Sum(w, a, m) + Sum(w, b, m)
    decreases |b|
  {
    if b == [] {
      assert a + b == a;
    } else {
      var front, last := b[..|b| - 1], b[|b| - 1];
      assert b == front + [last] && a + b == (a + front) + [last];
      SumAppend(w, a, front, m);
      SumLast(w, a + front, last, m);
      SumLast(w, front, last, m);
    }
  }

  lemma SumOne(w: Wiring, r: Resource, m: Meter)
    ensures Sum(w, [r], m) == Take(w, r, m)
  {
    assert [r][..0] == [];
  }

  lemma OneCrossing(s: Node, h: Node, b: int, e: Edge)
    ensures Times([(s, h)], b, e) == if e == Pair(s, h) then b else 0
  {
    var pairs := [(s, h)];
    assert pairs[..0] == [] && pairs[0] == (s, h);
    assert Times(pairs[..0], b, e) == 0;
  }

  lemma {:induction false} TimesSign(pairs: seq<Hop>, b: int, e: Edge)
    requires b >= 0
    ensures Times(pairs, b, e) >= 0
    decreases |pairs|
  {
    if pairs != [] { TimesSign(pairs[..|pairs| - 1], b, e); }
  }

  lemma {:induction false} SumSign(w: Wiring, rs: seq<Resource>, m: Meter)
    requires forall r :: r in rs ==> WellFormed(w, r)
    ensures Sum(w, rs, m) >= 0
    decreases |rs|
  {
    if rs != [] {
      var r := rs[|rs| - 1];
      assert r in rs && WellFormed(w, r);
      SumSign(w, rs[..|rs| - 1], m);
      if m.Bw? && !r.IsVlan() { TimesSign(PairsOf(w, r), r.Value(), m.e); }
      if m.EdgeVlan? { TimesSign(PairsOf(w, r), 1, m.e); }
    }
  }

  /** An edge listed once counts once, an edge not listed counts nothing. */
  lemma {:induction false} TimesDistinct(pairs: seq<Hop>, b: int, e: Edge)
    requires DistinctEdges(pairs)
    ensures Times(pairs, b, e) == if exists h :: h in pairs && Crosses(h, e) then b else 0
    decreases |pairs|
  {
    if pairs != [] {
      var front, last := pairs[..|pairs| - 1], pairs[|pairs| - 1];
      TimesDistinct(front, b, e);
      assert pairs == front + [last];
      if Crosses(last, e) {
        assert last in pairs;
        forall h | h in front ensures !Crosses(h, e) {
          var i :| 0 <= i < |front| && front[i] == h;
          assert Pair(pairs[i].0, pairs[i].1) != Pair(last.0, last.1);
        }
      }
    }
  }

  lemma {:induction false} OccursDistinct(nodes: seq<Node>, n: Node)
    requires Distinct(nodes)
    ensures Occurs(nodes, n) == if n in nodes then 1 else 0
    decreases |nodes|
  {
    if nodes != [] {
      OccursDistinct(nodes[..|nodes| - 1], n);
      assert nodes == nodes[..|nodes| - 1] + [nodes[|nodes| - 1]];
    }
  }

  // ----- What a resource takes, from its own fields -----

  predicate Joins(path: seq<Node>, i: int, e: Edge) {
    0 <= i < |path| - 1 && Pair(path[i], path[i + 1]) == e
  }

  /** The edge lies between two neighbours of the path, is one of the pairs, or is behind the port. */
  ghost predicate Along(path: seq<Node>, e: Edge) {
    exists i :: Joins(path, i, e)
  }

  predicate Among(pairs: seq<Hop>, e: Edge) {
    exists h :: h in pairs && Crosses(h, e)
  }

  predicate BehindPort(w: Wiring, s: Node, p: int, e: Edge) {
    s in w && PortNeighbor(w, s, p).Some? && Pair(s, PortNeighbor(w, s, p).value) == e
  }

  ghost predicate NamesEdge(w: Wiring, r: Resource, e: Edge) {
    match r
    case VlanPort(s, p, _) => BehindPort(w, s, p, e)
    case BandwidthPort(s, p, _) => BehindPort(w, s, p, e)
    case VlanPath(path, _) => Along(path, e)
    case BandwidthPath(path, _) => Along(path, e)
    case VlanTree(_, pairs, _) => Among(pairs, e)
    case BandwidthTree(_, pairs, _) => Among(pairs, e)
  }

  lemma NamedPairs(w: Wiring, r: Resource, e: Edge)
    ensures NamesEdge(w, r, e) <==> Among(PairsOf(w, r), e)
  {
    var pairs := PairsOf(w, r);
    if r.VlanPath? || r.BandwidthPath? {
      if i :| Joins(r.path, i, e) { assert pairs[i] in pairs && Crosses(pairs[i], e); }
      if h :| h in pairs && Crosses(h, e) {
        var i :| 0 <= i < |pairs| && pairs[i] == h;
        assert Joins(r.path, i, e);
      }
    } else if r.OnPort() && pairs != [] {
      assert pairs[0] in pairs;
    }
  }

  /** The bandwidth it asks for on an edge, and how often it asks for a VLAN on an edge or a node. */
  ghost function BandwidthAsked(w: Wiring, r: Resource, e: Edge): int {
    if (r.BandwidthPort? || r.BandwidthPath? || r.BandwidthTree?) && NamesEdge(w, r, e) then r.bandwidth else 0
  }

  ghost function VlanAsked(w: Wiring, r: Resource, e: Edge, v: int): int {
    if (r.VlanPort? || r.VlanPath? || r.VlanTree?) && NamesEdge(w, r, e) && r.vlan == v then 1 else 0
  }

  ghost function VlanAskedAt(r: Resource, n: Node, v: int): int {
    if ((r.VlanPath? && n in r.path) || (r.VlanTree? && n in r.nodes)) && r.vlan == v then 1 else 0
  }

  /** A resource takes just that from every meter. */
  lemma TakesExactly(w: Wiring, r: Resource, m: Meter)
    requires WellFormed(w, r)
    ensures Take(w, r, m) == match m
                             case Bw(e) => BandwidthAsked(w, r, e)
                             case EdgeVlan(e, v) => VlanAsked(w, r, e, v)
                             case NodeVlan(n, v) => VlanAskedAt(r, n, v)
  {
    match m
    case Bw(e) => NamedPairs(w, r, e); TimesDistinct(PairsOf(w, r), r.Value(), e);
    case EdgeVlan(e, v) => NamedPairs(w, r, e); TimesDistinct(PairsOf(w, r), 1, e);
    case NodeVlan(n, v) => OccursDistinct(NodesOf(r), n);
  }
}
