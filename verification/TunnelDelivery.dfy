/** What the network of tunnel rules does to a frame: put in at one end of a tunnel, it follows the
    tunnel's path on the intermediate VLAN and comes out of the other end on that end's VLAN. */
module TunnelDelivery {
  import opened Basics
  import opened Graphs
  import opened PathResources
  import opened TopologyManagers
  import opened RuleManagers
  import opened OpenFlow
  import opened RyuTranslate
  import opened L2Tunnels
  import opened TunnelIsolation

  // ----- The network -----

  /** The flows of one tunnel on switch u. */
  ghost function OwnFlows(w: Wiring, u: Node): Laid -> seq<Flow> {
    l => if LaidOk(w, l) then FlowsOn(RulesOf(w, l.t, l.path, l.iv), l.cookie, u) else []
  }

  /** What every switch carries, whatever policies put it there. */
  type Tables = Node -> seq<Flow>

  /** What one switch does with a frame: drop it (or multiply it), pass it to the next switch, or send
      it out of the network. */
  datatype Fate = Lose | Next(switch: Node, frame: Frame) | Leave(port: int, tags: seq<int>)

  /** What becomes of what a switch sends out. */
  function FateOf(w: Wiring, u: Node, outs: seq<Out>, dst: int): Fate
    requires u in w
  {
    if |outs| != 1 then Lose else
      match Across(w, u, outs[0].port)
      case None => Leave(outs[0].port, outs[0].tags)
      case Some((v, port)) => Next(v, Frame(port, outs[0].tags, dst))
  }

  ghost function HopAt(w: Wiring, tables: Tables, u: Node, f: Frame): Fate {
    if u !in w then Lose else FateOf(w, u, Process(tables(u), L2TUNNEL_TABLE, f), f.dst)
  }

  ghost function Network(w: Wiring, tables: Tables): (Node, Frame) -> Fate {
    (u, f) => HopAt(w, tables, u, f)
  }

  datatype Trip = Lost | Trip(visited: seq<Node>, port: int, tags: seq<int>)

  /** Follows a frame from switch to switch until it leaves the network, over at most `fuel` links. */
  function Travel(net: (Node, Frame) -> Fate, u: Node, f: Frame, fuel: nat): Trip
    decreases fuel
  {
    match net(u, f)
    case Lose => Lost
    case Leave(port, tags) => Trip([u], port, tags)
    case Next(v, g) =>
      if fuel == 0 then Lost else
        match Travel(net, v, g, fuel - 1)
        case Lost => Lost
        case Trip(visited, p, tags) => Trip([u] + visited, p, tags)
  }

  /** Switch k of the path hands the frame it hears to the next switch. */
  predicate Hands(net: (Node, Frame) -> Fate, path: seq<Node>, frames: seq<Frame>, k: int) {
    0 <= k < |path| - 1 && k + 1 < |frames| && net(path[k], frames[k]) == Next(path[k + 1], frames[k + 1])
  }

  /** If each switch of the path passes the frame to the next and the last sends it out, that is the trip. */
  lemma {:induction false} Follows(net: (Node, Frame) -> Fate, path: seq<Node>, frames: seq<Frame>, i: nat, port: int,
                                   tags: seq<int>)
    requires i < |path| == |frames|
    requires forall k {:trigger Hands(net, path, frames, k)} :: 0 <= k < |path| - 1 ==> Hands(net, path, frames, k)
    requires net(path[|path| - 1], frames[|path| - 1]) == Leave(port, tags)
    ensures Travel(net, path[i], frames[i], |path| - 1 - i) == Trip(path[i..], port, tags)
    decreases |path| - i
  {
    if i < |path| - 1 {
      assert Hands(net, path, frames, i);
      Follows(net, path, frames, i + 1, port, tags);
      assert path[i..] == [path[i]] + path[i + 1..];
    }
  }

  lemma FollowsAll(net: (Node, Frame) -> Fate, path: seq<Node>, frames: seq<Frame>, port: int, tags: seq<int>)
    requires 0 < |path| == |frames|
    requires forall k {:trigger Hands(net, path, frames, k)} :: 0 <= k < |path| - 1 ==> Hands(net, path, frames, k)
    requires net(path[|path| - 1], frames[|path| - 1]) == Leave(port, tags)
    ensures Travel(net, path[0], frames[0], |path| - 1) == Trip(path, port, tags)
  {
    Follows(net, path, frames, 0, port, tags);
    assert path[0..] == path;
  }

  ghost predicate Here(w: Wiring, l: Laid, s: Slot, u: Node, x: Flow)
    requires LaidOk(w, l)
  {
    Used(l.path, s) && LaidKey(w, l, s).switch == u && x == SlotFlow(w, l.t, l.path, l.iv, l.cookie, s)
  }

  lemma OwnSlot(w: Wiring, l: Laid, u: Node, x: Flow) returns (s: Slot)
    requires LaidOk(w, l) && x in OwnFlows(w, u)(l)
    ensures Here(w, l, s, u, x)
  {
    FlowsAreSlots(w, l.t, l.path, l.iv, l.cookie, u, x);
    s :| Used(l.path, s) && KeyOf(w, l.t, l.path, l.iv, s).switch == u
      && x == SlotFlow(w, l.t, l.path, l.iv, l.cookie, s);
  }

  ghost predicate IsTunnelFlow(w: Wiring, ls: seq<Laid>, u: Node, x: Flow) {
    exists i :: 0 <= i < |ls| && x in OwnFlows(w, u)(ls[i])
  }

  predicate HeardThere(k: Key, f: Frame) {
    f.inPort == k.port && f.tags != [] && f.tags[0] == k.vlan
  }

  /** Of the flows that the frame meets in this place, only tunnels' are as important as a tunnel's. */
  ghost predicate Unrivalled(w: Wiring, ls: seq<Laid>, tables: Tables, k: Key, f: Frame) {
    HeardThere(k, f) ==>
      forall x :: x in tables(k.switch) && Hits(x, L2TUNNEL_TABLE, f) && x.priority >= PRIORITY_MATCH_ACTION ==>
        IsTunnelFlow(w, ls, k.switch, x)
  }

  /** The switches carry the tunnel's flows, and wherever it listens no flow that is not a tunnel's gets in
      between. Besides that they may carry anything. */
  ghost predicate Hosted(w: Wiring, ls: seq<Laid>, tables: Tables, l: Laid)
    requires LaidOk(w, l)
  {
    && (forall u, x {:trigger x in OwnFlows(w, u)(l)} :: x in OwnFlows(w, u)(l) ==> x in tables(u))
    && forall s, f {:trigger Unrivalled(w, ls, tables, LaidKey(w, l, s), f)} ::
         Used(l.path, s) ==> Unrivalled(w, ls, tables, LaidKey(w, l, s), f)
  }

  /** Flows of other policies are less important in the tunnels' table. */
  predicate Modest(base: seq<Flow>) {
    forall x :: x in base && x.table == L2TUNNEL_TABLE ==> x.priority < PRIORITY_MATCH_ACTION
  }

  /** The tunnels' flows on top of those of other policies. */
  ghost function OnTop(w: Wiring, bases: Tables, ls: seq<Laid>): Tables {
    u => Stack(bases(u), OwnFlows(w, u), ls)
  }

  /** So every tunnel is hosted by switches that carry the tunnels on top of flows of other policies. */
  lemma ModestHosts(w: Wiring, ls: seq<Laid>, bases: Tables, i: nat)
    requires AllLaid(w, ls) && i < |ls| && forall u {:trigger bases(u)} :: Modest(bases(u))
    ensures Hosted(w, ls, OnTop(w, bases, ls), ls[i])
  {
    var tables := OnTop(w, bases, ls);
    forall u, x | x in OwnFlows(w, u)(ls[i]) ensures x in tables(u) {
      InStack(bases(u), OwnFlows(w, u), ls, x);
    }
    forall s, f | Used(ls[i].path, s) ensures Unrivalled(w, ls, tables, LaidKey(w, ls[i], s), f) {
      var u := LaidKey(w, ls[i], s).switch;
      forall x | x in tables(u) && Hits(x, L2TUNNEL_TABLE, f) && x.priority >= PRIORITY_MATCH_ACTION
        ensures IsTunnelFlow(w, ls, u, x)
      {
        InStack(bases(u), OwnFlows(w, u), ls, x);
        assert Modest(bases(u));
      }
    }
  }

  /** No frame is matched by two slots of the tunnels. */
  ghost predicate Apart(w: Wiring, ls: seq<Laid>)
    requires AllLaid(w, ls)
  {
    forall i, s, j, s' :: 0 <= i < |ls| && 0 <= j < |ls| && SharesKey(w, ls[i], ls[j], s, s') ==> i == j && s == s'
  }

  /** A frame that a slot matches leaves through the other side of its rule, retagged. */
  lemma SlotForwards(w: Wiring, ls: seq<Laid>, tables: Tables, i: nat, s: Slot, f: Frame)
    requires AllLaid(w, ls) && i < |ls| && Apart(w, ls) && Hosted(w, ls, tables, ls[i])
    requires Used(ls[i].path, s) && HeardThere(LaidKey(w, ls[i], s), f)
    ensures Used(ls[i].path, Mate(ls[i].path, s))
    ensures var k, m := LaidKey(w, ls[i], s), LaidKey(w, ls[i], Mate(ls[i].path, s));
            Process(tables(k.switch), L2TUNNEL_TABLE, f)
            == if m.port != k.port then [Out(m.port, [m.vlan] + f.tags[1..])] else []
  {
    var l := ls[i];
    SlotInRules(w, l.t, l.path, l.iv, l.cookie, s);
    var k, m := LaidKey(w, l, s), LaidKey(w, l, Mate(l.path, s));
    var own := SlotFlow(w, l.t, l.path, l.iv, l.cookie, s);
    FlowsAreSlots(w, l.t, l.path, l.iv, l.cookie, k.switch, own);
    assert own in OwnFlows(w, k.switch)(l);
    forall x | x in tables(k.switch) && Hits(x, L2TUNNEL_TABLE, f) && x.priority >= PRIORITY_MATCH_ACTION
      ensures x.instructions == Instructions([SetField(m.vlan), Forward(m.port)], L2TUNNEL_TABLE)
    {
      SlotHeard(w, ls, tables, i, s, f, x);
    }
    SteerProcess(tables(k.switch), f, own, m.vlan, m.port);
  }

  /** The only flow as important as a tunnel's that matches the slot's frames is the slot's own. */
  lemma SlotHeard(w: Wiring, ls: seq<Laid>, tables: Tables, i: nat, s: Slot, f: Frame, x: Flow)
    requires AllLaid(w, ls) && i < |ls| && Apart(w, ls) && Hosted(w, ls, tables, ls[i])
    requires Used(ls[i].path, s) && HeardThere(LaidKey(w, ls[i], s), f)
    requires x in tables(LaidKey(w, ls[i], s).switch) && Hits(x, L2TUNNEL_TABLE, f)
             && x.priority >= PRIORITY_MATCH_ACTION
    ensures x == SlotFlow(w, ls[i].t, ls[i].path, ls[i].iv, ls[i].cookie, s)
  {
    var k := LaidKey(w, ls[i], s);
    assert Unrivalled(w, ls, tables, k, f);
    var j :| 0 <= j < |ls| && x in OwnFlows(w, k.switch)(ls[j]);
    var s' := OwnSlot(w, ls[j], k.switch, x);
    assert SharesKey(w, ls[i], ls[j], s, s');
  }

  // ----- Delivery -----

  /** The ends of the tunnel are ports that do not lead to another switch. */
  ghost predicate EdgePorts(w: Wiring, l: Laid)
    requires LaidOk(w, l)
  {
    && (l.t.srcSwitch in w && Across(w, l.t.srcSwitch, l.t.srcPort) == None)
    && (l.t.dstSwitch in w && Across(w, l.t.dstSwitch, l.t.dstPort) == None)
  }

  /** The switches in the order a frame visits them: forward from the source, backward to it. */
  function Way(path: seq<Node>, back: bool): (r: seq<Node>)
    ensures |r| == |path| && forall k :: 0 <= k < |r| ==> r[k] == path[if back then |path| - 1 - k else k]
  {
    seq(|path|, k requires 0 <= k < |path| => path[if back then |path| - 1 - k else k])
  }

  /** Where a frame is heard at the k-th switch of its way. */
  function Enter(path: seq<Node>, back: bool, k: nat): Slot
    requires k < |path|
  {
    if back then if k == 0 then DstIn else if k == |path| - 1 then SrcOut else MidOut(|path| - 1 - k)
    else if k == 0 then SrcIn else if k == |path| - 1 then DstOut else MidIn(k)
  }

  /** One end of the tunnel: where the way begins, or where it ends. */
  function End(t: Tunnel, dst: bool): Key {
    if dst then Key(t.dstSwitch, t.dstPort, t.dstVlan) else Key(t.srcSwitch, t.srcPort, t.srcVlan)
  }

  lemma StepAcross(w: Wiring, l: Laid, back: bool, k: nat)
    requires WiringOk(w) && LaidOk(w, l) && k + 1 < |l.path|
    ensures var way := Way(l.path, back);
            && way[k] in w && way[k + 1] in w && Linked(w, way[k], way[k + 1]) && Linked(w, way[k + 1], way[k])
            && Across(w, way[k], PortTo(w, way[k], way[k + 1])) == Some((way[k + 1], PortTo(w, way[k + 1], way[k])))
            && Across(w, way[k + 1], PortTo(w, way[k + 1], way[k])) == Some((way[k], PortTo(w, way[k], way[k + 1])))
  {
    var i := if back then |l.path| - 2 - k else k;
    assert HopOk(w, l.path, i);
    PortAndNeighbor(w, l.path[i], l.path[i + 1]);
    PortAndNeighbor(w, l.path[i + 1], l.path[i]);
  }

  /** What the k-th switch of the way hears: the end itself, or the port towards the switch before. */
  ghost predicate EntersAt(w: Wiring, l: Laid, back: bool, k: nat, key: Key) {
    k < |l.path| && var way := Way(l.path, back);
    if k == 0 then key == End(l.t, back)
    else Linked(w, way[k], way[k - 1]) && key == Key(way[k], PortTo(w, way[k], way[k - 1]), l.iv)
  }

  /** Where the k-th switch of the way sends it: to the next switch, or out at the other end. */
  ghost predicate LeavesAt(w: Wiring, l: Laid, back: bool, k: nat, key: Key) {
    k < |l.path| && var way := Way(l.path, back);
    if k == |l.path| - 1 then key == End(l.t, !back)
    else Linked(w, way[k], way[k + 1]) && key == Key(way[k], PortTo(w, way[k], way[k + 1]), l.iv)
  }

  lemma EntersLeaves(w: Wiring, l: Laid, back: bool, k: nat)
    requires WiringOk(w) && LaidOk(w, l) && |l.path| > 1 && k < |l.path|
    ensures var s := Enter(l.path, back, k);
            && Used(l.path, s) && EntersAt(w, l, back, k, LaidKey(w, l, s))
            && LaidKey(w, l, s).switch == Way(l.path, back)[k]
            && Used(l.path, Mate(l.path, s)) && LeavesAt(w, l, back, k, LaidKey(w, l, Mate(l.path, s)))
  {
    if k + 1 < |l.path| { StepAcross(w, l, back, k); }
    if k > 0 { StepAcross(w, l, back, k - 1); }
  }

  /** The switch before, the switch after and the outside are on different ports. */
  lemma PortsDiffer(w: Wiring, l: Laid, back: bool, k: nat, enter: Key, leave: Key)
    requires WiringOk(w) && LaidOk(w, l) && EdgePorts(w, l) && |l.path| > 1
    requires EntersAt(w, l, back, k, enter) && LeavesAt(w, l, back, k, leave)
    ensures enter.port != leave.port
  {
    if k + 1 < |l.path| { StepAcross(w, l, back, k); }
    if k > 0 { StepAcross(w, l, back, k - 1); }
    if 0 < k < |l.path| - 1 {
      assert Way(l.path, back)[k - 1] != Way(l.path, back)[k + 1];
    }
  }

  /** The frame as the k-th switch of the way hears it. */
  ghost function Heard(w: Wiring, l: Laid, back: bool, inner: seq<int>, dst: int, k: nat): Frame
    requires WiringOk(w) && LaidOk(w, l) && k < |l.path|
  {
    if k == 0 then
      Frame(End(l.t, back).port, [End(l.t, back).vlan] + inner, dst)
    else
      var way := Way(l.path, back);
      StepAcross(w, l, back, k - 1);
      Frame(PortTo(w, way[k], way[k - 1]), [l.iv] + inner, dst)
  }

  lemma PassesOn(w: Wiring, tables: Tables, u: Node, f: Frame, out: Out)
    requires u in w && Process(tables(u), L2TUNNEL_TABLE, f) == [out]
    ensures HopAt(w, tables, u, f) == match Across(w, u, out.port)
                                  case None => Leave(out.port, out.tags)
                                  case Some((v, port)) => Next(v, Frame(port, out.tags, f.dst))
  {
  }

  /** At the k-th switch the tunnel's own rule retags the frame and sends it on. */
  lemma SendsOn(w: Wiring, ls: seq<Laid>, tables: Tables, a: nat, back: bool, inner: seq<int>, dst: int, k: nat)
    returns (leave: Key)
    requires WiringOk(w) && AllLaid(w, ls) && a < |ls| && Apart(w, ls) && Hosted(w, ls, tables, ls[a])
             && EdgePorts(w, ls[a])
    requires |ls[a].path| > 1 && k < |ls[a].path|
    ensures LeavesAt(w, ls[a], back, k, leave)
    ensures Process(tables(Way(ls[a].path, back)[k]), L2TUNNEL_TABLE, Heard(w, ls[a], back, inner, dst, k))
         == [Out(leave.port, [leave.vlan] + inner)]
  {
    var l := ls[a];
    var s, f := Enter(l.path, back, k), Heard(w, l, back, inner, dst, k);
    EntersLeaves(w, l, back, k);
    leave := LaidKey(w, l, Mate(l.path, s));
    PortsDiffer(w, l, back, k, LaidKey(w, l, s), leave);
    assert f.tags[1..] == inner;
    SlotForwards(w, ls, tables, a, s, f);
  }

  /** So it is what the next switch hears. */
  lemma HandsOn(w: Wiring, ls: seq<Laid>, tables: Tables, a: nat, back: bool, inner: seq<int>, dst: int, k: nat)
    requires WiringOk(w) && AllLaid(w, ls) && a < |ls| && Apart(w, ls) && Hosted(w, ls, tables, ls[a])
             && EdgePorts(w, ls[a]) && k + 1 < |ls[a].path|
    ensures HopAt(w, tables, Way(ls[a].path, back)[k], Heard(w, ls[a], back, inner, dst, k))
         == Next(Way(ls[a].path, back)[k + 1], Heard(w, ls[a], back, inner, dst, k + 1))
  {
    var leave := SendsOn(w, ls, tables, a, back, inner, dst, k);
    StepAcross(w, ls[a], back, k);
    PassesOn(w, tables, Way(ls[a].path, back)[k], Heard(w, ls[a], back, inner, dst, k),
             Out(leave.port, [leave.vlan] + inner));
  }

  lemma ComesOut(w: Wiring, ls: seq<Laid>, tables: Tables, a: nat, back: bool, inner: seq<int>, dst: int)
    requires WiringOk(w) && AllLaid(w, ls) && a < |ls| && Apart(w, ls) && Hosted(w, ls, tables, ls[a])
             && EdgePorts(w, ls[a]) && |ls[a].path| > 1
    ensures var l := ls[a]; var n := |l.path|;
            HopAt(w, tables, Way(l.path, back)[n - 1], Heard(w, l, back, inner, dst, n - 1))
            == Leave(End(l.t, !back).port, [End(l.t, !back).vlan] + inner)
  {
    var l, n := ls[a], |ls[a].path|;
    var leave := SendsOn(w, ls, tables, a, back, inner, dst, n - 1);
    PassesOn(w, tables, Way(l.path, back)[n - 1], Heard(w, l, back, inner, dst, n - 1),
             Out(leave.port, [leave.vlan] + inner));
  }

  lemma HandsNext(w: Wiring, ls: seq<Laid>, tables: Tables, a: nat, back: bool, inner: seq<int>, dst: int,
                  frames: seq<Frame>, k: nat)
    requires WiringOk(w) && AllLaid(w, ls) && a < |ls| && Apart(w, ls) && Hosted(w, ls, tables, ls[a])
             && EdgePorts(w, ls[a]) && k + 1 < |ls[a].path|
    requires k + 1 < |frames| && frames[k] == Heard(w, ls[a], back, inner, dst, k)
             && frames[k + 1] == Heard(w, ls[a], back, inner, dst, k + 1)
    ensures Hands(Network(w, tables), Way(ls[a].path, back), frames, k)
  {
    HandsOn(w, ls, tables, a, back, inner, dst, k);
  }

  lemma Travels(w: Wiring, ls: seq<Laid>, tables: Tables, a: nat, back: bool, inner: seq<int>, dst: int)
    requires WiringOk(w) && AllLaid(w, ls) && a < |ls| && Apart(w, ls) && Hosted(w, ls, tables, ls[a])
             && EdgePorts(w, ls[a]) && |ls[a].path| > 1
    ensures var l := ls[a];
            Travel(Network(w, tables), Way(l.path, back)[0], Heard(w, l, back, inner, dst, 0), |l.path| - 1)
            == Trip(Way(l.path, back), End(l.t, !back).port, [End(l.t, !back).vlan] + inner)
  {
    var l := ls[a];
    var way, out := Way(l.path, back), End(l.t, !back);
    var frames := FramesOf(w, l, back, inner, dst);
    AllHand(w, ls, tables, a, back, inner, dst);
    ComesOut(w, ls, tables, a, back, inner, dst);
    FollowsAll(Network(w, tables), way, frames, out.port, [out.vlan] + inner);
  }

  /** The frame as each switch of the way hears it. */
  ghost function FramesOf(w: Wiring, l: Laid, back: bool, inner: seq<int>, dst: int): (r: seq<Frame>)
    requires WiringOk(w) && LaidOk(w, l)
    ensures |r| == |l.path| && forall k :: 0 <= k < |r| ==> r[k] == Heard(w, l, back, inner, dst, k)
  {
    seq(|l.path|, k requires 0 <= k < |l.path| => Heard(w, l, back, inner, dst, k))
  }

  lemma AllHand(w: Wiring, ls: seq<Laid>, tables: Tables, a: nat, back: bool, inner: seq<int>, dst: int)
    requires WiringOk(w) && AllLaid(w, ls) && a < |ls| && Apart(w, ls) && Hosted(w, ls, tables, ls[a])
             && EdgePorts(w, ls[a])
    ensures var net, way, frames := Network(w, tables), Way(ls[a].path, back), FramesOf(w, ls[a], back, inner, dst);
            forall k {:trigger Hands(net, way, frames, k)} :: 0 <= k < |way| - 1 ==> Hands(net, way, frames, k)
  {
    var way, frames := Way(ls[a].path, back), FramesOf(w, ls[a], back, inner, dst);
    forall k | 0 <= k < |way| - 1 ensures Hands(Network(w, tables), way, frames, k) {
      HandsNext(w, ls, tables, a, back, inner, dst, frames, k);
    }
  }

  lemma StopsHere(w: Wiring, tables: Tables, u: Node, f: Frame)
    requires u in w && Process(tables(u), L2TUNNEL_TABLE, f) == []
    ensures HopAt(w, tables, u, f) == Lose
  {
  }

  lemma OneHop(net: (Node, Frame) -> Fate, u: Node, f: Frame)
    requires !net(u, f).Next?
    ensures Travel(net, u, f, 0) == match net(u, f) case Leave(port, tags) => Trip([u], port, tags) case _ => Lost
  {
  }

  /** On one switch the two ports must differ, because a switch never sends a frame back where it came
      from. */
  lemma TravelsNear(w: Wiring, ls: seq<Laid>, tables: Tables, a: nat, s: Slot, inner: seq<int>, dst: int)
    requires WiringOk(w) && AllLaid(w, ls) && a < |ls| && Apart(w, ls) && Hosted(w, ls, tables, ls[a])
             && EdgePorts(w, ls[a]) && |ls[a].path| == 1
    requires s == SrcIn || s == DstIn
    ensures var l := ls[a];
            var k, m := LaidKey(w, l, s), LaidKey(w, l, if s == SrcIn then DstIn else SrcIn);
            Travel(Network(w, tables), k.switch, Frame(k.port, [k.vlan] + inner, dst), 0)
            == if k.port != m.port then Trip([k.switch], m.port, [m.vlan] + inner) else Lost
  {
    var l := ls[a];
    var k := LaidKey(w, l, s);
    var m := LaidKey(w, l, if s == SrcIn then DstIn else SrcIn);
    var f := Frame(k.port, [k.vlan] + inner, dst);
    assert f.tags[1..] == inner;
    SlotForwards(w, ls, tables, a, s, f);
    if k.port != m.port {
      PassesOn(w, tables, k.switch, f, Out(m.port, [m.vlan] + inner));
    } else {
      StopsHere(w, tables, k.switch, f);
    }
    OneHop(Network(w, tables), k.switch, f);
  }

  /** A frame put in at one end comes out of the other, retagged for that end, having visited exactly the
      switches of the path in order. */
  ghost predicate Delivers(w: Wiring, tables: Tables, l: Laid, back: bool, inner: seq<int>, dst: int) {
    DeliversBy(Network(w, tables), l, back, inner, dst)
  }

  /** The same in any network. */
  ghost predicate DeliversBy(net: (Node, Frame) -> Fate, l: Laid, back: bool, inner: seq<int>, dst: int) {
    var start, stop := End(l.t, back), End(l.t, !back);
    Travel(net, start.switch, Frame(start.port, [start.vlan] + inner, dst), if l.path == [] then 0 else |l.path| - 1)
    == Trip(Way(l.path, back), stop.port, [stop.vlan] + inner)
  }

  /** End to end: among tunnels that are apart, a tunnel between edge ports delivers in both directions,
      if and only if it is not one port of one switch talking to itself. */
  lemma TunnelDelivers(w: Wiring, ls: seq<Laid>, tables: Tables, a: nat, back: bool, inner: seq<int>, dst: int)
    requires WiringOk(w) && AllLaid(w, ls) && a < |ls| && Apart(w, ls) && Hosted(w, ls, tables, ls[a])
             && EdgePorts(w, ls[a])
    ensures Delivers(w, tables, ls[a], back, inner, dst) <==> |ls[a].path| > 1 || ls[a].t.srcPort != ls[a].t.dstPort
  {
    var l := ls[a];
    if |l.path| > 1 {
      Travels(w, ls, tables, a, back, inner, dst);
      assert Way(l.path, back)[0] == End(l.t, back).switch;
    } else {
      TravelsNear(w, ls, tables, a, if back then DstIn else SrcIn, inner, dst);
      assert Way(l.path, back) == [End(l.t, back).switch];
    }
  }

  /** A tunnel between two VLANs of one port does not deliver, even alone on its switch. */
  lemma OnePortFails(a: Node, back: bool, inner: seq<int>, dst: int)
    ensures var w: Wiring := map[a := []];
            var l := Laid(Tunnel(a, 1, 10, a, 1, 20, 0), [a], 1, 1);
            LaidOk(w, l) && !Delivers(w, OnTop(w, _ => Bootstrap(-1), [l]), l, back, inner, dst)
  {
    var w: Wiring := map[a := []];
    var l := Laid(Tunnel(a, 1, 10, a, 1, 20, 0), [a], 1, 1);
    var bases: Tables := _ => Bootstrap(-1);
    LonelyOk(a, l);
    ModestHosts(w, [l], bases, 0);
    TunnelDelivers(w, [l], OnTop(w, bases, [l]), 0, back, inner, dst);
  }

  // ----- Every active tunnel delivers -----

  /** `rows` says which row of the rule table each tunnel is. */
  ghost predicate AllActive(w: Wiring, table: Table, ls: seq<Laid>, rows: seq<nat>) {
    && |rows| == |ls| && (forall i, j :: 0 <= i < j < |rows| ==> rows[i] != rows[j])
    && AllLaid(w, ls) && forall i :: 0 <= i < |ls| ==> ActiveTunnel(table, rows[i], ls[i])
  }

  /** No endpoint on a port that leads nowhere is the end of two tunnels, or both ends of one. */
  ghost predicate EndsApart(w: Wiring, ls: seq<Laid>)
    requires AllLaid(w, ls)
  {
    forall i, s, j, s' {:trigger SharesEnd(w, ls[i], ls[j], s, s')} ::
      0 <= i < |ls| && 0 <= j < |ls| && SharesEnd(w, ls[i], ls[j], s, s') ==> i == j && s == s'
  }

  /** Active tunnels are apart exactly if those ends are. */
  lemma ActiveApartIff(w: Wiring, nodes: Nodes, edges: Links, table: Table, last: int, leaked: seq<Resource>,
                       ls: seq<Laid>, rows: seq<nat>)
    requires WiringOk(w) && BooksOk(w, nodes, edges, table, last, leaked, []) && AllActive(w, table, ls, rows)
    ensures Apart(w, ls) <==> EndsApart(w, ls)
  {
    if EndsApart(w, ls) {
      forall i, s, j, s' | 0 <= i < |ls| && 0 <= j < |ls| && SharesKey(w, ls[i], ls[j], s, s')
        ensures i == j && s == s'
      {
        if i != j || s != s' {
          if i != j { assert rows[i] != rows[j]; }
          SameKeyDangles(w, nodes, edges, table, last, leaked, rows[i], ls[i], s, rows[j], ls[j], s');
          assert SharesEnd(w, ls[i], ls[j], s, s');
        }
      }
    }
  }

  /** In every run of the rule manager in which no installation has failed, however many tunnels are
      active together: each of them delivers, in both directions, as long as they do not share an end on a port that
      leads nowhere. */
  lemma ActiveTunnelsDeliver(w: Wiring, nodes: Nodes, edges: Links, table: Table, last: int, leaked: seq<Resource>,
                             ls: seq<Laid>, rows: seq<nat>, tables: Tables, a: nat, back: bool, inner: seq<int>,
                             dst: int)
    requires WiringOk(w) && BooksOk(w, nodes, edges, table, last, leaked, []) && AllActive(w, table, ls, rows)
    requires EndsApart(w, ls)
    requires a < |ls| && Hosted(w, ls, tables, ls[a]) && EdgePorts(w, ls[a])
    ensures Delivers(w, tables, ls[a], back, inner, dst) <==> |ls[a].path| > 1 || ls[a].t.srcPort != ls[a].t.dstPort
  {
    ActiveApartIff(w, nodes, edges, table, last, leaked, ls, rows);
    TunnelDelivers(w, ls, tables, a, back, inner, dst);
  }
}
