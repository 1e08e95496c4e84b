/** The part of OpenFlow 1.3.2 that the installed rules rely on: matching in a table by priority, the
    apply-actions, clear-actions and goto-table instructions (sections 5.1, 5.3, 5.9 and 5.11), and
    links between switches. Frames carry a stack of VLAN tags, outermost first. */
module OpenFlow {
  import opened Basics
  import opened Graphs
  import opened PathResources

  const LAST_TABLE := 4
  const OFPP_CONTROLLER := 0xfffffffd

  datatype Action = Output(port: int) | SetVlan(vlan: int) | PushVlan | PopVlan

  datatype Instruction = Apply(actions: seq<Action>) | Clear | Metadata(value: int, mask: int) | Goto(table: int)

  /** What a flow matches on; a field left out matches anything. */
  datatype Match = Match(inPort: Option<int>, vlan: Option<int>, ethDst: Option<int>)

  datatype Flow = Flow(cookie: int, table: int, priority: int, on: Match, instructions: seq<Instruction>)

  datatype Frame = Frame(inPort: int, tags: seq<int>, dst: int)

  datatype Out = Out(port: int, tags: seq<int>)

  predicate Allows<T(==)>(field: Option<T>, x: T) {
    field.None? || field.value == x
  }

  predicate Matches(m: Match, f: Frame) {
    && Allows(m.inPort, f.inPort) && Allows(m.ethDst, f.dst)
    && (m.vlan.None? || (f.tags != [] && f.tags[0] == m.vlan.value))
  }

  predicate Hits(flow: Flow, table: int, f: Frame) {
    flow.table == table && Matches(flow.on, f)
  }

  /** The matching flow of highest priority; the first listed among equals. */
  function Best(flows: seq<Flow>, table: int, f: Frame): Option<Flow> {
    if flows == [] then None else
      var rest := Best(flows[..|flows| - 1], table, f);
      var last := flows[|flows| - 1];
      if Hits(last, table, f) && (rest.None? || rest.value.priority < last.priority) then Some(last) else rest
  }

  /** If every matching flow of at least this priority says the same, that is what happens. */
  lemma {:induction false} BestSays(flows: seq<Flow>, table: int, f: Frame, priority: int, says: seq<Instruction>)
    requires exists x :: x in flows && Hits(x, table, f) && x.priority >= priority
    requires forall x :: x in flows && Hits(x, table, f) && x.priority >= priority ==> x.instructions == says
    ensures Best(flows, table, f).Some? && Best(flows, table, f).value.instructions == says
    ensures Best(flows, table, f).value.priority >= priority
  {
    var front, last := flows[..|flows| - 1], flows[|flows| - 1];
    assert flows == front + [last];
    if exists x :: x in front && Hits(x, table, f) && x.priority >= priority {
      BestSays(front, table, f, priority, says);
    } else {
      BestBelow(front, table, f, priority);
    }
  }

  lemma {:induction false} BestBelow(flows: seq<Flow>, table: int, f: Frame, priority: int)
    requires forall x :: x in flows && Hits(x, table, f) ==> x.priority < priority
    ensures Best(flows, table, f).Some? ==> Best(flows, table, f).value.priority < priority
  {
    if flows != [] {
      var front, last := flows[..|flows| - 1], flows[|flows| - 1];
      assert flows == front + [last];
      BestBelow(front, table, f, priority);
    }
  }

  /** A table with a matching flow chooses a matching flow at least as important. */
  lemma {:induction false} BestIs(flows: seq<Flow>, table: int, f: Frame, own: Flow)
    requires own in flows && Hits(own, table, f)
    ensures Best(flows, table, f).Some?
    ensures var best := Best(flows, table, f).value;
            && best in flows && Hits(best, table, f)
            && best.priority >= own.priority
    decreases |flows|
  {
    var front, last := flows[..|flows| - 1], flows[|flows| - 1];
    assert flows == front + [last];
    if own in front {
      BestIs(front, table, f, own);
    } else if Best(front, table, f).Some? {
      BestAmong(front, table, f);
    }
  }

  lemma {:induction false} BestAmong(flows: seq<Flow>, table: int, f: Frame)
    requires Best(flows, table, f).Some?
    ensures Best(flows, table, f).value in flows && Hits(Best(flows, table, f).value, table, f)
    decreases |flows|
  {
    var front, last := flows[..|flows| - 1], flows[|flows| - 1];
    assert flows == front + [last];
    if Best(front, table, f).Some? { BestAmong(front, table, f); }
  }

  // ----- Executing a flow -----

  /** The actions of all apply instructions, in order: they run before any goto takes effect. */
  function Applied(instructions: seq<Instruction>): seq<Action> {
    if instructions == [] then []
    else (if instructions[0].Apply? then instructions[0].actions else []) + Applied(instructions[1..])
  }

  function NextTable(instructions: seq<Instruction>): Option<int> {
    if instructions == [] then None
    else if instructions[0].Goto? then Some(instructions[0].table)
    else NextTable(instructions[1..])
  }

  function Retag(tags: seq<int>, a: Action): seq<int> {
    match a
    case Output(_) => tags
    case SetVlan(v) => if tags == [] then tags else [v] + tags[1..]
    case PushVlan => if tags == [] then [0] else [tags[0]] + tags
    case PopVlan => if tags == [] then tags else tags[1..]
  }

  /** The tags after a list of actions. */
  function Tagged(tags: seq<int>, actions: seq<Action>): seq<int>
    decreases |actions|
  {
    if actions == [] then tags else Tagged(Retag(tags, actions[0]), actions[1..])
  }

  /** A tag that is pushed can be set on its own and is gone once popped. */
  lemma PushedAndPopped(tags: seq<int>, vlan: int)
    ensures Tagged(tags, [PushVlan, SetVlan(vlan)]) == [vlan] + tags
    ensures Tagged(tags, [PushVlan, SetVlan(vlan), PopVlan]) == tags
  {
    var push, two, three := Retag(tags, PushVlan), [PushVlan, SetVlan(vlan)], [PushVlan, SetVlan(vlan), PopVlan];
    assert push[1..] == tags;
    assert two[1..] == [SetVlan(vlan)] && two[1..][1..] == [];
    assert three[1..] == [SetVlan(vlan), PopVlan] && three[1..][1..] == [PopVlan] && [PopVlan][1..] == [];
    assert Retag(push, SetVlan(vlan)) == [vlan] + tags && Retag([vlan] + tags, PopVlan) == tags;
    assert Tagged([vlan] + tags, [PopVlan]) == tags;
    assert Tagged(push, [SetVlan(vlan), PopVlan]) == Tagged([vlan] + tags, [PopVlan]);
    assert Tagged(push, [SetVlan(vlan)]) == [vlan] + tags;
  }

  /** What a list of actions sends out. A frame is never sent back to the port it came in on. */
  function Emitted(inPort: int, tags: seq<int>, actions: seq<Action>): seq<Out>
    decreases |actions|
  {
    if actions == [] then [] else
      (if actions[0].Output? && actions[0].port != inPort then [Out(actions[0].port, tags)] else [])
      + Emitted(inPort, Retag(tags, actions[0]), actions[1..])
  }

  /** The pipeline from a table on. A miss, or a jump that does not go forward, drops the frame. */
  function Process(flows: seq<Flow>, table: int, f: Frame): seq<Out>
    decreases LAST_TABLE - table
  {
    match Best(flows, table, f)
    case None => []
    case Some(flow) =>
      var actions := Applied(flow.instructions);
      Emitted(f.inPort, f.tags, actions) +
      match NextTable(flow.instructions)
      case Some(t) => if table < t <= LAST_TABLE then Process(flows, t, f.(tags := Tagged(f.tags, actions))) else []
      case None => []
  }

  /** A flow that sends nothing out leaves it to the table it jumps to. */
  lemma SilentProcess(flows: seq<Flow>, table: int, f: Frame)
    requires Best(flows, table, f).Some?
             && Emitted(f.inPort, f.tags, Applied(Best(flows, table, f).value.instructions)) == []
    ensures var says := Best(flows, table, f).value.instructions;
            Process(flows, table, f) ==
            if NextTable(says).Some? && table < NextTable(says).value <= LAST_TABLE
            then Process(flows, NextTable(says).value, f.(tags := Tagged(f.tags, Applied(says)))) else []
  {
  }

  /** A flow that jumps nowhere has the last word. */
  lemma FinalProcess(flows: seq<Flow>, table: int, f: Frame, says: seq<Instruction>)
    requires Best(flows, table, f).Some? && Best(flows, table, f).value.instructions == says && NextTable(says) == None
    ensures Process(flows, table, f) == Emitted(f.inPort, f.tags, Applied(says))
  {
  }

  /** The flows of a switch: those it had, and then those of one owner after the other. */
  function Stack<T>(base: seq<Flow>, own: T -> seq<Flow>, owners: seq<T>): seq<Flow> {
    if owners == [] then base else Stack(base, own, owners[..|owners| - 1]) + own(owners[|owners| - 1])
  }

  lemma {:induction false} InStack<T>(base: seq<Flow>, own: T -> seq<Flow>, owners: seq<T>, x: Flow)
    ensures x in Stack(base, own, owners) <==> x in base || exists i :: 0 <= i < |owners| && x in own(owners[i])
  {
    if owners != [] {
      var front := owners[..|owners| - 1];
      InStack(base, own, front, x);
      assert owners == front + [owners[|owners| - 1]];
      if i :| 0 <= i < |owners| && x in own(owners[i]) {
        if i < |front| { assert front[i] == owners[i]; }
      }
    }
  }

  lemma {:induction false} BestFront(front: seq<Flow>, back: seq<Flow>, table: int, f: Frame)
    requires forall x :: x in back ==> !Hits(x, table, f)
    ensures Best(front + back, table, f) == Best(front, table, f)
    decreases |back|
  {
    if back == [] {
      assert front + back == front;
    } else {
      var all := front + back;
      assert all[..|all| - 1] == front + back[..|back| - 1] && back[|back| - 1] in back;
      BestFront(front, back[..|back| - 1], table, f);
    }
  }

  /** Owners whose flows do not match leave the frame to the flows below. */
  lemma {:induction false} BestBase<T>(base: seq<Flow>, own: T -> seq<Flow>, owners: seq<T>, table: int, f: Frame)
    requires forall i, x :: 0 <= i < |owners| && x in own(owners[i]) ==> !Hits(x, table, f)
    ensures Best(Stack(base, own, owners), table, f) == Best(base, table, f)
    decreases |owners|
  {
    if owners != [] {
      var front := owners[..|owners| - 1];
      forall i, x | 0 <= i < |front| && x in own(front[i]) ensures !Hits(x, table, f) {
        assert front[i] == owners[i];
      }
      BestBase(base, own, front, table, f);
      BestFront(Stack(base, own, front), own(owners[|owners| - 1]), table, f);
    }
  }

  // ----- Links -----

  /** Every cable of a switch has its own port and its own neighbour, and is seen from both ends when
      both ends are switches. */
  ghost predicate CablesOk(w: Wiring, u: Node)
    requires u in w
  {
    && (forall i, j :: 0 <= i < j < |w[u]| ==> w[u][i].port != w[u][j].port && w[u][i].neighbor != w[u][j].neighbor)
    && (forall i :: 0 <= i < |w[u]| ==> w[u][i].neighbor != u)
    && (forall i :: 0 <= i < |w[u]| && w[u][i].neighbor in w ==> FirstTo(w[w[u][i].neighbor], u).Some?)
  }

  ghost predicate WiringOk(w: Wiring) {
    forall u {:trigger CablesOk(w, u)} :: u in w ==> CablesOk(w, u)
  }

  function FirstTo(cables: seq<Cable>, v: Node): Option<int> {
    if cables == [] then None
    else if cables[0].neighbor == v then Some(cables[0].port)
    else FirstTo(cables[1..], v)
  }

  predicate Linked(w: Wiring, u: Node, v: Node) {
    u in w && FirstTo(w[u], v).Some?
  }

  /** The port of u on its edge to v. */
  function PortTo(w: Wiring, u: Node, v: Node): int
    requires Linked(w, u, v)
  {
    FirstTo(w[u], v).value
  }

  lemma {:induction false} FirstToFinds(cables: seq<Cable>, v: Node)
    ensures FirstTo(cables, v).Some? <==> exists i :: 0 <= i < |cables| && cables[i].neighbor == v
    ensures FirstTo(cables, v).Some? ==>
            exists i :: 0 <= i < |cables| && cables[i] == Cable(v, FirstTo(cables, v).value)
  {
    if cables != [] && cables[0].neighbor != v {
      FirstToFinds(cables[1..], v);
      if FirstTo(cables[1..], v).Some? {
        var i :| 0 <= i < |cables[1..]| && cables[1..][i] == Cable(v, FirstTo(cables[1..], v).value);
        assert cables[i + 1] == Cable(v, FirstTo(cables, v).value);
      }
      if i :| 0 <= i < |cables| && cables[i].neighbor == v {
        assert cables[1..][i - 1].neighbor == v;
      }
    }
  }

  lemma {:induction false} FirstOnIndex(cables: seq<Cable>, p: int)
    ensures FirstOn(cables, p).Some? ==>
            exists i :: 0 <= i < |cables| && cables[i] == Cable(FirstOn(cables, p).value, p)
    ensures FirstOn(cables, p).None? ==> forall i :: 0 <= i < |cables| ==> cables[i].port != p
  {
    if cables != [] && cables[0].port != p {
      FirstOnIndex(cables[1..], p);
      if FirstOn(cables[1..], p).Some? {
        var i :| 0 <= i < |cables[1..]| && cables[1..][i] == Cable(FirstOn(cables[1..], p).value, p);
        assert cables[i + 1] == Cable(FirstOn(cables, p).value, p);
      } else {
        forall i | 0 <= i < |cables| ensures cables[i].port != p {
          if i > 0 { assert cables[1..][i - 1] == cables[i]; }
        }
      }
    }
  }

  /** Ports and neighbours determine each other. */
  lemma PortAndNeighbor(w: Wiring, u: Node, v: Node)
    requires WiringOk(w) && Linked(w, u, v)
    ensures PortNeighbor(w, u, PortTo(w, u, v)) == Some(v)
  {
    assert CablesOk(w, u);
    FirstToFinds(w[u], v);
    var p := PortTo(w, u, v);
    FirstOnIndex(w[u], p);
    var i :| 0 <= i < |w[u]| && w[u][i] == Cable(v, p);
    if PortNeighbor(w, u, p).Some? {
      var j :| 0 <= j < |w[u]| && w[u][j] == Cable(FirstOn(w[u], p).value, p);
      assert i == j;
    }
  }

  lemma LinkedBack(w: Wiring, u: Node, v: Node)
    requires WiringOk(w) && Linked(w, u, v) && v in w
    ensures Linked(w, v, u)
  {
    assert CablesOk(w, u);
    FirstToFinds(w[u], v);
  }

  /** Where a frame sent out of a port of a switch comes in next; None when it leaves the network. */
  function Across(w: Wiring, u: Node, p: int): Option<(Node, int)>
    requires u in w
  {
    match PortNeighbor(w, u, p)
    case None => None
    case Some(v) => if Linked(w, v, u) then Some((v, PortTo(w, v, u))) else None
  }
}
