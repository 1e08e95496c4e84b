/** What becomes of the books when a reservation fails: a tunnel within one switch that asks for more bandwidth than
    the cable behind its first port has. The search for a path does not look at that cable, so the tunnel is laid out;
    adding it fails at its fifth resource, and so does activating it later. */
module FailedRuns {
  import opened Basics
  import opened Graphs
  import opened PathResources
  import opened TopologyManagers
  import opened RuleManagers
  import opened OpenFlow
  import opened L2Tunnels

  const TOO_MUCH := 20

  function Greedy(s: Node): Tunnel {
    Tunnel(s, 1, 10, s, 2, 20, TOO_MUCH)
  }

  function OneCable(s: Node, h: Node): Wiring {
    map[s := [Cable(h, 1)]]
  }

  /** A switch with one cable of weight 10, where nothing is in use. */
  ghost predicate Fresh(s: Node, h: Node, nodes: Nodes, edges: Links) {
    && s in nodes && Pair(s, h) in edges && edges[Pair(s, h)].weight == 10
    && forall m :: Read(nodes, edges, m) == 0
  }

  lemma OneCableOk(s: Node, h: Node)
    requires s != h
    ensures WiringOk(OneCable(s, h)) && PathOk(OneCable(s, h), Greedy(s), [s])
  {
    assert CablesOk(OneCable(s, h), s);
  }

  lemma OneCablePorts(s: Node, h: Node)
    ensures PortNeighbor(OneCable(s, h), s, 1) == Some(h) && PortNeighbor(OneCable(s, h), s, 2) == None
  {
    var cables := [Cable(h, 1)];
    assert OneCable(s, h)[s] == cables && cables[1..] == [];
    assert FirstOn(cables, 2) == FirstOn(cables[1..], 2) == None;
  }

  /** What each of the tunnel's resources takes. */
  lemma GreedyTakes(s: Node, h: Node, iv: int, m: Meter)
    ensures var w, rs, e := OneCable(s, h), TunnelResources(Greedy(s), [s], iv), Pair(s, h);
            && Take(w, rs[0], m) == (if m == NodeVlan(s, iv) then 1 else 0)
            && Take(w, rs[1], m) == (if m == EdgeVlan(e, 10) then 1 else 0)
            && Take(w, rs[2], m) == 0 && Take(w, rs[3], m) == 0
            && Take(w, rs[4], m) == (if m == Bw(e) then TOO_MUCH else 0)
            && Take(w, rs[5], m) == 0
  {
    var w, rs := OneCable(s, h), TunnelResources(Greedy(s), [s], iv);
    OneCablePorts(s, h);
    assert PairsOf(w, rs[1]) == [(s, h)] && PairsOf(w, rs[4]) == [(s, h)];
    assert PairsOf(w, rs[2]) == [] && PairsOf(w, rs[3]) == [] && PairsOf(w, rs[5]) == [] && PairsOf(w, rs[0]) == [];
    if m.NodeVlan? { OccursDistinct([s], m.n); }
    if !m.NodeVlan? { OneCrossing(s, h, if m.Bw? then TOO_MUCH else 1, m.e); }
  }

  lemma GreedySums(s: Node, h: Node, iv: int, m: Meter)
    ensures var w, rs, e := OneCable(s, h), TunnelResources(Greedy(s), [s], iv), Pair(s, h);
            && Sum(w, rs[..4], m) == (if m == NodeVlan(s, iv) || m == EdgeVlan(e, 10) then 1 else 0)
            && Sum(w, rs[..5], m) == Sum(w, rs[..4], m) + (if m == Bw(e) then TOO_MUCH else 0)
            && Sum(w, rs, m) == Sum(w, rs[..5], m)
  {
    var w, rs := OneCable(s, h), TunnelResources(Greedy(s), [s], iv);
    GreedyTakes(s, h, iv, m);
    assert rs[..0] == [] && rs[..6] == rs;
    SumStep(w, rs, 0, m);
    SumStep(w, rs, 1, m);
    SumStep(w, rs, 2, m);
    SumStep(w, rs, 3, m);
    SumStep(w, rs, 4, m);
    SumStep(w, rs, 5, m);
  }

  /** The first four resources can be reserved, the fifth cannot. */
  lemma GreedyStops(s: Node, h: Node, iv: int, nodes: Nodes, edges: Links)
    requires s != h && Fresh(s, h, nodes, edges)
    ensures var w, rs := OneCable(s, h), TunnelResources(Greedy(s), [s], iv);
            LongestFit(w, nodes, edges, rs, 4) && !RoomForAll(w, nodes, edges, rs)
  {
    var w, rs, e := OneCable(s, h), TunnelResources(Greedy(s), [s], iv), Pair(s, h);
    forall r | r in rs[..4] ensures Placed(w, nodes, edges, r) {
      GreedyPlaced(s, h, iv, nodes, edges, r);
    }
    forall m: Meter | m.Bw? ==> m.e in edges ensures Read(nodes, edges, m) + Sum(w, rs[..4], m) <= Capacity(edges, m) {
      GreedySums(s, h, iv, m);
    }
    GreedySums(s, h, iv, Bw(e));
    assert Read(nodes, edges, Bw(e)) == 0 && Capacity(edges, Bw(e)) == 10;
  }

  lemma GreedyPlaced(s: Node, h: Node, iv: int, nodes: Nodes, edges: Links, r: Resource)
    requires s in nodes && Pair(s, h) in edges && r in TunnelResources(Greedy(s), [s], iv)
    ensures Placed(OneCable(s, h), nodes, edges, r)
  {
    var w := OneCable(s, h);
    OneCablePorts(s, h);
    assert PairsOf(w, r) == [] || PairsOf(w, r) == [(s, h)];
  }

  /** Set-up: the topology, a rule manager for it, and the tunnel as its policy lays it out. */
  method LayGreedy(s: Node, h: Node) returns (m: RuleManager, policy: L2TunnelPolicy)
    requires s != h
    ensures fresh(m) && fresh(m.tm) && fresh(policy) && m.Valid() && m.table == [] && m.leaked == [] && m.owed == []
    ensures m.tm.wiring == OneCable(s, h) && Fresh(s, h, m.tm.nodes, m.tm.edges)
    ensures policy.fullpath == [s] && policy.intermediateVlan.Some?
    ensures policy.resources == TunnelResources(Greedy(s), [s], policy.intermediateVlan.value)
  {
    var nodes := map[s := NodeInfo(true, [])];
    var edges := map[Pair(s, h) := Link(10, 0, [], [])];
    var tm := new TopologyManager(OneCable(s, h), nodes, edges);
    assert forall m :: Read(nodes, edges, m) == 0;
    m := new RuleManager(tm);
    policy := new L2TunnelPolicy(Greedy(s));
    OneCableOk(s, h);
    CandidatePath(OneCable(s, h), Greedy(s), [s]);
    assert ClearOnPath(nodes, edges, [s], 1) && Hops([s]) == [];
    assert Usable(nodes, edges, [s], TOO_MUCH);
    var r := policy.BreakdownRule(tm, [[s]]);
    assert [s] in [[s]];
  }

  /** Adding the tunnel fails and leaves four of its resources behind: with no rule in the table, its VLANs still
      count as in use, on the switch and on the cable. */
  method FailedAddLeaks(s: Node, h: Node) returns (m: RuleManager, policy: L2TunnelPolicy, r: Added)
    requires s != h
    ensures r == Failed && m.table == [] && policy.intermediateVlan.Some?
    ensures Read(m.tm.nodes, m.tm.edges, NodeVlan(s, policy.intermediateVlan.value)) == 1
    ensures Read(m.tm.nodes, m.tm.edges, EdgeVlan(Pair(s, h), 10)) == 1
    ensures !Conserved(m.tm.wiring, m.tm.nodes, m.tm.edges, m.table)
  {
    m, policy := LayGreedy(s, h);
    var rs := policy.resources;
    ghost var w, nodes, edges, iv := OneCable(s, h), m.tm.nodes, m.tm.edges, policy.intermediateVlan.value;
    OneCableOk(s, h);
    TunnelFormed(w, Greedy(s), [s], iv);
    GreedyStops(s, h, iv, nodes, edges);
    r := m.AddRule(None, None, rs, 0);
    GreedyLeft(s, h, iv, nodes, edges, m.tm.nodes, m.tm.edges, m.leaked);
  }

  lemma GreedyLeft(s: Node, h: Node, iv: int, nodes0: Nodes, edges0: Links, nodes: Nodes, edges: Links,
                   leaked: seq<Resource>)
    requires s != h && Fresh(s, h, nodes0, edges0)
    requires exists k ::
      LeakedAt(OneCable(s, h), nodes0, edges0, [], leaked, TunnelResources(Greedy(s), [s], iv), k)
    requires Balanced(OneCable(s, h), nodes, edges, [], leaked, [])
    ensures Read(nodes, edges, NodeVlan(s, iv)) == 1 && Read(nodes, edges, EdgeVlan(Pair(s, h), 10)) == 1
    ensures !Conserved(OneCable(s, h), nodes, edges, [])
  {
    var w, rs := OneCable(s, h), TunnelResources(Greedy(s), [s], iv);
    var k: nat :| LeakedAt(w, nodes0, edges0, [], leaked, rs, k);
    FourFit(s, h, iv, nodes0, edges0, k);
    assert leaked == rs[..4];
    GreedySums(s, h, iv, NodeVlan(s, iv));
    GreedySums(s, h, iv, EdgeVlan(Pair(s, h), 10));
    LeftBehind(w, nodes, edges, leaked, NodeVlan(s, iv));
    LeftBehind(w, nodes, edges, leaked, EdgeVlan(Pair(s, h), 10));
  }

  lemma FourFit(s: Node, h: Node, iv: int, nodes: Nodes, edges: Links, k: nat)
    requires s != h && Fresh(s, h, nodes, edges)
    requires LongestFit(OneCable(s, h), nodes, edges, TunnelResources(Greedy(s), [s], iv), k)
    ensures k == 4
  {
    var w, rs := OneCable(s, h), TunnelResources(Greedy(s), [s], iv);
    OneCableOk(s, h);
    TunnelFormed(w, Greedy(s), [s], iv);
    GreedyStops(s, h, iv, nodes, edges);
    LongestMost(w, nodes, edges, rs, 4, k);
    LongestMost(w, nodes, edges, rs, k, 4);
  }

  /** With no rule in the table the meters show what leaked. */
  lemma LeftBehind(w: Wiring, nodes: Nodes, edges: Links, leaked: seq<Resource>, m: Meter)
    requires Balanced(w, nodes, edges, [], leaked, [])
    ensures Read(nodes, edges, m) == Sum(w, leaked, m)
    ensures Sum(w, leaked, m) != 0 ==> !Conserved(w, nodes, edges, [])
  {
    assert Read(nodes, edges, m) + Sum(w, [], m) == Sum(w, ActiveResources([]), m) + Sum(w, leaked, m);
  }

  // ----- A timed tunnel -----

  /** The table while the tunnel waits, and once it is active. */
  function Waiting(hash: int, rs: seq<Resource>, state: State): Table {
    [Record(hash, state, Some(5), None, rs)]
  }

  lemma OneWaiting(hash: int, rs: seq<Resource>)
    ensures InactiveByStart(Waiting(hash, rs, Inactive)) == Waiting(hash, rs, Inactive)
    ensures DueCount(Waiting(hash, rs, Inactive), 7) == 1 && DueResources(Waiting(hash, rs, Inactive), 7) == rs
    ensures HashesOf(Waiting(hash, rs, Inactive)[..1]) == {hash}
  {
    var t := Waiting(hash, rs, Inactive);
    assert t[1..] == [] && t[..1] == t && t[..0] == [];
    assert ResourcesOf(t) == [] + rs;
    assert t[0] in t[..1];
  }

  lemma OneActive(hash: int, rs: seq<Resource>)
    ensures Activated(Waiting(hash, rs, Inactive), {hash}) == Waiting(hash, rs, Active)
    ensures ActiveResources(Waiting(hash, rs, Active)) == rs
    ensures !Scheduled(Waiting(hash, rs, Active), Some(5))
  {
    var t := Waiting(hash, rs, Active);
    assert t[..0] == [];
    assert ActiveResources(t) == [] + rs;
  }

  /** Where the callback stops. */
  lemma StopsAtFifth(s: Node, h: Node, iv: int, hash: int, nodes: Nodes, edges: Links, k: nat, t: nat)
    requires s != h && Fresh(s, h, nodes, edges)
    requires var rows := Waiting(hash, TunnelResources(Greedy(s), [s], iv), Inactive);
             StopsAt(OneCable(s, h), nodes, edges, rows, 7, k, t)
    ensures k == 0 && t == 4
  {
    var rs := TunnelResources(Greedy(s), [s], iv);
    var rows := Waiting(hash, rs, Inactive);
    OneWaiting(hash, rs);
    assert rows[..0] == [];
    assert Ahead(rows, 0, t) == [] + rs[..t] && Ahead(rows, 0, t + 1) == [] + rs[..t + 1];
    assert [] + rs[..t] == rs[..t] && [] + rs[..t + 1] == rs[..t + 1];
    FourFit(s, h, iv, nodes, edges, t);
  }

  /** The tunnel is active then, but its bandwidth is not on the cable. */
  lemma FifthOwed(s: Node, h: Node, iv: int, nodes: Nodes, edges: Links, hash: int)
    requires var rs := TunnelResources(Greedy(s), [s], iv);
             Balanced(OneCable(s, h), nodes, edges, Waiting(hash, rs, Active), [], [] + rs[4..])
    ensures Owing(OneCable(s, h), nodes, edges, Waiting(hash, TunnelResources(Greedy(s), [s], iv), Active)[0])
  {
    var w, rs, m := OneCable(s, h), TunnelResources(Greedy(s), [s], iv), Bw(Pair(s, h));
    OneActive(hash, rs);
    assert [] + rs[4..] == rs[4..] && rs == rs[..4] + rs[4..];
    SumAppend(w, rs[..4], rs[4..], m);
    GreedySums(s, h, iv, m);
    assert Read(nodes, edges, m) + Sum(w, rs[4..], m) == Sum(w, rs, m) + Sum(w, [], m);
    assert Read(nodes, edges, m) == 0 && Sum(w, rs, m) == TOO_MUCH;
  }

  /** The same tunnel, to start later. */
  method AddForLater(s: Node, h: Node) returns (m: RuleManager, policy: L2TunnelPolicy, hash: int)
    requires s != h
    ensures fresh(m) && fresh(m.tm) && fresh(policy) && m.Valid() && m.leaked == [] && m.owed == []
    ensures m.tm.wiring == OneCable(s, h) && Fresh(s, h, m.tm.nodes, m.tm.edges)
    ensures policy.intermediateVlan.Some?
    ensures policy.resources == TunnelResources(Greedy(s), [s], policy.intermediateVlan.value)
    ensures m.table == Waiting(hash, policy.resources, Inactive) && m.installNextTime == Some(5)
  {
    m, policy := LayGreedy(s, h);
    OneCableOk(s, h);
    TunnelFormed(OneCable(s, h), Greedy(s), [s], policy.intermediateVlan.value);
    var added := m.AddRule(Some(5), None, policy.resources, 0);
    hash := added.hash;
  }

  /** When its time comes, the callback raises and leaves the timer at a time for which nothing waits. The tunnel
      counts as active, and removing it raises too. */
  method FailedCallback(s: Node, h: Node)
    returns (m: RuleManager, policy: L2TunnelPolicy, hash: int, ok: bool, removed: Removed)
    requires s != h
    ensures !ok && removed == Stuck
    ensures m.table == Waiting(hash, policy.resources, Active)
    ensures m.installNextTime == Some(5) && !Scheduled(m.table, m.installNextTime)
  {
    m, policy, hash := AddForLater(s, h);
    ghost var iv, nodes, edges := policy.intermediateVlan.value, m.tm.nodes, m.tm.edges;
    OneWaiting(hash, policy.resources);
    GreedyStops(s, h, iv, nodes, edges);
    ok := m.RuleInstallTimerCb(7);
    AfterCallback(s, h, iv, nodes, edges, m.tm.nodes, m.tm.edges, hash, m.table, m.owed);
    removed := m.RemoveRule(hash, true);
  }

  lemma AfterCallback(s: Node, h: Node, iv: int, nodes0: Nodes, edges0: Links, nodes: Nodes, edges: Links, hash: int,
                      table: Table, owed: seq<Resource>)
    requires s != h && Fresh(s, h, nodes0, edges0)
    requires var waiting := Waiting(hash, TunnelResources(Greedy(s), [s], iv), Inactive);
             exists k, t :: StopsAt(OneCable(s, h), nodes0, edges0, waiting, 7, k, t)
                            && StoppedAt(waiting, waiting, table, [], owed, k, t)
    requires Balanced(OneCable(s, h), nodes, edges, table, [], owed)
    ensures table == Waiting(hash, TunnelResources(Greedy(s), [s], iv), Active) && !Scheduled(table, Some(5))
    ensures Owing(OneCable(s, h), nodes, edges, table[0])
  {
    var rs := TunnelResources(Greedy(s), [s], iv);
    var waiting := Waiting(hash, rs, Inactive);
    var k: nat, t: nat :| StopsAt(OneCable(s, h), nodes0, edges0, waiting, 7, k, t)
                          && StoppedAt(waiting, waiting, table, [], owed, k, t);
    StopsAtFifth(s, h, iv, hash, nodes0, edges0, k, t);
    OneWaiting(hash, rs);
    OneActive(hash, rs);
    FifthOwed(s, h, iv, nodes, edges, hash);
  }
}
