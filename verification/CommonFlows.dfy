/** What the common flows do to a frame on a switch that carries nothing else: edge ports show it to the controller,
    learned destinations send it to their port, flood trees broadcast it. */
module CommonFlows {
  import opened Basics
  import opened Graphs
  import opened PathResources
  import opened OpenFlow
  import opened RyuTranslate
  import opened MultipointFlows
  import opened EdgePorts

  /** The first tables leave the frame alone. */
  lemma FirstTables(w: Wiring, u: Node, base: seq<Flow>, f: Frame)
    requires Common(w, u, base)
    ensures Process(base, L2TUNNEL_TABLE, f) == Process(base, LEARNING_TABLE, f)
  {
    for table := 0 to LEARNING_TABLE
      invariant Process(base, L2TUNNEL_TABLE, f) == Process(base, table, f)
    {
      forall x | x in base && Hits(x, table, f) ensures x in Bootstrap(-1) {
        assert !IsEdgePortFlow(w, u, x) && !IsLearnedFlow(x) && !IsFloodTreeFlow(x);
      }
      DefaultStep(base, table, f);
    }
  }

  // ----- The learning table -----

  /** The learning table picks the edge port's flow, not the table's default. */
  predicate Picked(base: seq<Flow>, f: Frame) {
    Best(base, LEARNING_TABLE, f).Some? && Best(base, LEARNING_TABLE, f).value.on.inPort == Some(f.inPort)
  }

  /** Whatever matches there has the same priority. */
  lemma AllTied(w: Wiring, u: Node, base: seq<Flow>, f: Frame, x: Flow)
    requires Common(w, u, base) && x in base && Hits(x, LEARNING_TABLE, f)
    ensures x.priority == PRIORITY_DEFAULT
    ensures x == Default(-1, LEARNING_TABLE) || x == EdgePortFlow(x.cookie, f.inPort)
  {
    InBootstrap(x);
    assert !IsLearnedFlow(x) && !IsFloodTreeFlow(x);
  }

  /** So an edge port's frame is shown to the controller exactly if the switch picks the port's flow among equals, and
      goes on to the last table in either case. */
  lemma ShownIff(w: Wiring, u: Node, base: seq<Flow>, f: Frame)
    requires Common(w, u, base) && f.inPort != OFPP_CONTROLLER
    ensures Process(base, LEARNING_TABLE, f)
         == (if Picked(base, f) then [Out(OFPP_CONTROLLER, f.tags)] else []) + Process(base, FORWARDING_TABLE, f)
  {
    var default := Default(-1, LEARNING_TABLE);
    InBootstrap(default);
    BestIs(base, LEARNING_TABLE, f, default);
    var best := Best(base, LEARNING_TABLE, f).value;
    AllTied(w, u, base, f, best);
    assert f.(tags := f.tags) == f;
    if Picked(base, f) {
      LearningMeans();
      var actions := [Output(OFPP_CONTROLLER)];
      assert actions[1..] == [];
      assert Emitted(f.inPort, f.tags, actions) == [Out(OFPP_CONTROLLER, f.tags)] + [];
      assert Tagged(f.tags, actions) == f.tags;
    } else {
      DefaultMeans(-1, LEARNING_TABLE);
      SilentProcess(base, LEARNING_TABLE, f);
    }
  }

  /** Which of them is picked is a matter of order: with the starting rules listed first the edge port's flow never
      wins, listed first itself it does. */
  lemma OrderDecides(w: Wiring, u: Node, cookie: int, f: Frame)
    requires u in w && f.inPort in PortsOut(w, w[u])
    ensures var x := EdgePortFlow(cookie, f.inPort);
            && Common(w, u, Bootstrap(-1) + [x]) && !Picked(Bootstrap(-1) + [x], f)
            && Common(w, u, [x] + Bootstrap(-1)) && Picked([x] + Bootstrap(-1), f)
  {
    var x, default := EdgePortFlow(cookie, f.inPort), Default(-1, LEARNING_TABLE);
    var late, early := Bootstrap(-1) + [x], [x] + Bootstrap(-1);
    assert IsEdgePortFlow(w, u, x);
    InBootstrap(default);
    BestIs(Bootstrap(-1), LEARNING_TABLE, f, default);
    var best := Best(Bootstrap(-1), LEARNING_TABLE, f).value;
    InBootstrap(best);
    assert late[..|late| - 1] == Bootstrap(-1);
    FirstStays(x, Bootstrap(-1), LEARNING_TABLE, f);
  }

  /** A flow listed first is picked unless a later one is more important. */
  lemma {:induction false} FirstStays(x: Flow, rest: seq<Flow>, table: int, f: Frame)
    requires Hits(x, table, f) && forall y :: y in rest && Hits(y, table, f) ==> y.priority <= x.priority
    ensures Best([x] + rest, table, f) == Some(x)
    decreases |rest|
  {
    var all := [x] + rest;
    if rest == [] {
      assert all[..0] == [] && all[|all| - 1] == x;
    } else {
      var front, last := rest[..|rest| - 1], rest[|rest| - 1];
      assert last in rest && all[..|all| - 1] == [x] + front && all[|all| - 1] == last;
      FirstStays(x, front, table, f);
    }
  }

  // ----- The last table -----

  /** A frame to a learned address leaves by the port learned for it, unless it came from there. */
  lemma LearnedForwards(w: Wiring, u: Node, base: seq<Flow>, f: Frame, cookie: int, port: int)
    requires Common(w, u, base) && f.dst != BROADCAST && LearnedFlow(cookie, f.dst, port) in base
    requires forall c, p {:trigger LearnedFlow(c, f.dst, p)} :: LearnedFlow(c, f.dst, p) in base ==> p == port
    ensures Process(base, FORWARDING_TABLE, f) == if port != f.inPort then [Out(port, f.tags)] else []
  {
    var says := Instructions([Forward(port)], FORWARDING_TABLE);
    forall x | x in base && Hits(x, FORWARDING_TABLE, f) && x.priority >= PRIORITY_GENERIC_LEARNED
      ensures x.instructions == says
    {
      InBootstrap(x);
      assert IsLearnedFlow(x) && !IsFloodTreeFlow(x);
      var address, p :| x == LearnedFlow(x.cookie, address, p);
      assert LearnedFlow(x.cookie, f.dst, p) in base;
    }
    BestSays(base, FORWARDING_TABLE, f, PRIORITY_GENERIC_LEARNED, says);
    ForwardMeans(port);
    FinalProcess(base, FORWARDING_TABLE, f, says);
    assert [Output(port)][1..] == [];
  }

  lemma ForwardMeans(port: int)
    ensures Applied(Instructions([Forward(port)], FORWARDING_TABLE)) == [Output(port)]
    ensures NextTable(Instructions([Forward(port)], FORWARDING_TABLE)) == None
  {
    InstructionsMean([Forward(port)], FORWARDING_TABLE);
    assert [Forward(port)][..0] == [] && [Forward(port)][1..] == [];
  }

  /** A broadcast on a port of the flood tree leaves by all the other ports of the tree. */
  lemma BroadcastFloods(w: Wiring, u: Node, base: seq<Flow>, f: Frame, cookie: int, ports: seq<int>)
    requires Common(w, u, base) && f.dst == BROADCAST && FloodTreeFlow(cookie, ports, f.inPort) in base
    requires forall x :: x in base && Hits(x, FORWARDING_TABLE, f) && x.priority >= PRIORITY_FLOOD_FORWARDING ==>
               x.instructions == FloodTreeFlow(cookie, ports, f.inPort).instructions
    ensures Process(base, FORWARDING_TABLE, f) == ToPorts(ports, f.inPort, f.tags)
  {
    var actions := Others(ports, f.inPort);
    var says := Instructions(actions, FORWARDING_TABLE);
    BestSays(base, FORWARDING_TABLE, f, PRIORITY_FLOOD_FORWARDING, says);
    InstructionsMean(actions, FORWARDING_TABLE);
    OthersWire(ports, f.inPort);
    NoJump(actions, FORWARDING_TABLE);
    FinalProcess(base, FORWARDING_TABLE, f, says);
    PortsEmitted(ports, f.inPort, f.tags);
  }
}
