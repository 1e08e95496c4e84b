/** The protocol between the SDX controller and a local controller (LC): a handshake that hands over the
    initial rules, then heartbeats in both directions, over one FIFO channel each way. A step is one
    send, one receive together with what the receiver does about it, or one move of a heartbeat timer. */
module SdxProtocol {
  import opened Basics
  import opened Runs

  datatype Rule = Rule(id: int)

  datatype Message =
    | Hello(name: string)
    | CapabilitiesRequest
    | CapabilitiesResponse
    | InitialRuleCount(count: nat)
    | InitialRuleRequest(left: int)
    | InstallRule(rule: Rule)
    | InitialRulesComplete
    | TransitionToMain
    | HeartbeatRequest
    | HeartbeatResponse
    | Other(payload: int)

  datatype Packet = Packet(num: nat, ack: nat, body: Message)

  type Channel = seq<Packet>

  /** What both sides keep: message numbering, the outstanding heartbeat, the heartbeat thread (armed
      between raising the flag and sending), a response not sent yet, and how things went wrong. */
  datatype Side = Side(msgNum: nat, msgAck: nat, outstanding: bool, armed: bool, replying: bool,
                       closed: bool, raised: bool, warned: bool)

  datatype LcStage =
    | Starting | AwaitRequest | GotRequest | AwaitCount | Asking | AwaitRule | AwaitMain | LcMain

  datatype SdxStage =
    | AwaitHello | GotHello | AwaitCapabilities | GotCapabilities | Serving | Granting | Finishing | SdxMain

  datatype State = State(
    lc: Side, lcStage: LcStage, left: int, installed: seq<Rule>, completed: bool,
    sdx: Side, sdxStage: SdxStage, rules: seq<Rule>,
    up: Channel, down: Channel)

  /** What the LC calls itself, and which rules the SDX controller finds for a name. */
  datatype Setup = Setup(name: string, lookup: string -> seq<Rule>) {
    function All(): seq<Rule> {
      lookup(name)
    }
  }

  const IDLE := Side(0, 0, false, false, false, false, false, false)

  function Initial(): State {
    State(IDLE, Starting, 0, [], false, IDLE, AwaitHello, [], [], [])
  }

  datatype Who = Lc | Sdx

  datatype Action =
    | Handshake(who: Who)
    | Arm(who: Who)
    | Beat(who: Who)
    | Receive(who: Who)
    | Reply(who: Who)
    | Send(who: Who, payload: int)

  // ----- Numbering -----

  function Sent(a: Side): Side {
    a.(msgNum := a.msgNum + 1)
  }

  function Stamp(a: Side, body: Message): Packet {
    Packet(a.msgNum, a.msgAck, body)
  }

  /** The receiver complains when the peer acknowledges what was not sent yet, or numbers backwards. */
  function Got(a: Side, p: Packet): Side {
    a.(msgAck := p.num, warned := a.warned || p.ack > a.msgNum || p.num < a.msgAck)
  }

  // ----- The handshake -----

  function LcHandshake(s: State, cfg: Setup): Option<State> {
    match s.lcStage
    case Starting => Some(s.(lc := Sent(s.lc), up := s.up + [Stamp(s.lc, Hello(cfg.name))], lcStage := AwaitRequest))
    case GotRequest =>
      Some(s.(lc := Sent(s.lc), up := s.up + [Stamp(s.lc, CapabilitiesResponse)], lcStage := AwaitCount))
    case Asking =>
      if s.left > 0 then
        Some(s.(lc := Sent(s.lc), up := s.up + [Stamp(s.lc, InitialRuleRequest(s.left))], lcStage := AwaitRule))
      else
        Some(s.(lc := Sent(s.lc), up := s.up + [Stamp(s.lc, InitialRulesComplete)], lcStage := AwaitMain,
                completed := true))
    case LcMain => None
    case AwaitRequest => LcReceives(s)
    case AwaitCount => LcReceives(s)
    case AwaitRule => LcReceives(s)
    case AwaitMain => LcReceives(s)
  }

  /** The LC takes the next packet, which must be the one it waits for. */
  function LcReceives(s: State): Option<State> {
    if s.down == [] then None else
      var t := s.(lc := Got(s.lc, s.down[0]), down := s.down[1..]);
      var body := s.down[0].body;
      if s.lcStage == AwaitRequest && body.CapabilitiesRequest? then
        Some(t.(lcStage := GotRequest))
      else if s.lcStage == AwaitCount && body.InitialRuleCount? then
        Some(t.(lcStage := Asking, left := body.count))
      else if s.lcStage == AwaitRule && body.InstallRule? then
        Some(t.(lcStage := Asking, left := s.left - 1, installed := s.installed + [body.rule]))
      else if s.lcStage == AwaitMain && body.TransitionToMain? then
        Some(t.(lcStage := LcMain))
      else
        Some(t.(lc := t.lc.(raised := true)))
  }

  /** The controller looks up the rules for the name it is told. Asking for a rule when
      none is left would index an empty list. */
  function SdxHandshake(s: State, cfg: Setup): Option<State> {
    match s.sdxStage
    case GotHello =>
      Some(s.(sdx := Sent(s.sdx), down := s.down + [Stamp(s.sdx, CapabilitiesRequest)], sdxStage := AwaitCapabilities))
    case GotCapabilities =>
      Some(s.(sdx := Sent(s.sdx), down := s.down + [Stamp(s.sdx, InitialRuleCount(|s.rules|))], sdxStage := Serving))
    case Granting =>
      if s.rules == [] then
        Some(s.(sdx := s.sdx.(raised := true)))
      else
        Some(s.(sdx := Sent(s.sdx), down := s.down + [Stamp(s.sdx, InstallRule(s.rules[0]))], rules := s.rules[1..],
                sdxStage := Serving))
    case Finishing =>
      Some(s.(sdx := Sent(s.sdx), down := s.down + [Stamp(s.sdx, TransitionToMain)], sdxStage := SdxMain))
    case SdxMain => None
    case AwaitHello => SdxReceives(s, cfg)
    case AwaitCapabilities => SdxReceives(s, cfg)
    case Serving => SdxReceives(s, cfg)
  }

  function SdxReceives(s: State, cfg: Setup): Option<State> {
    if s.up == [] then None else
      var t := s.(sdx := Got(s.sdx, s.up[0]), up := s.up[1..]);
      var body := s.up[0].body;
      if s.sdxStage == AwaitHello && body.Hello? then
        Some(t.(sdxStage := GotHello, rules := cfg.lookup(body.name)))
      else if s.sdxStage == AwaitCapabilities && body.CapabilitiesResponse? then
        Some(t.(sdxStage := GotCapabilities))
      else if s.sdxStage == Serving && body.InitialRuleRequest? then
        Some(t.(sdxStage := Granting))
      else if s.sdxStage == Serving && body.InitialRulesComplete? && s.rules == [] then
        Some(t.(sdxStage := Finishing))
      else
        Some(t.(sdx := t.sdx.(raised := true)))
  }

  // ----- The main phase -----

  /** Raising the heartbeat flag; finding it still up means the peer missed a heartbeat. */
  function ArmSide(a: Side): Side {
    if a.outstanding then a.(closed := true) else a.(outstanding := true, armed := true)
  }

  /** Receiving in the main phase: requests are answered next, a response must be expected, handshake
      messages have no business here. */
  function ReceiveSide(a: Side, p: Packet): Side {
    var b := Got(a, p);
    match p.body
    case HeartbeatRequest => b.(replying := true)
    case HeartbeatResponse => if a.outstanding then b.(outstanding := false) else b.(raised := true)
    case Other(_) => b
    case _ => b.(raised := true)
  }

  predicate InMain(s: State, who: Who) {
    match who
    case Lc => s.lcStage == LcMain
    case Sdx => s.sdxStage == SdxMain
  }

  function SideOf(s: State, who: Who): Side {
    match who
    case Lc => s.lc
    case Sdx => s.sdx
  }

  function Inbox(s: State, who: Who): Channel {
    match who
    case Lc => s.down
    case Sdx => s.up
  }

  function WithSide(s: State, who: Who, a: Side): State {
    match who
    case Lc => s.(lc := a)
    case Sdx => s.(sdx := a)
  }

  function WithInbox(s: State, who: Who, ch: Channel): State {
    match who
    case Lc => s.(down := ch)
    case Sdx => s.(up := ch)
  }

  function Peer(who: Who): Who {
    match who
    case Lc => Sdx
    case Sdx => Lc
  }

  function Post(s: State, who: Who, a: Side, body: Message): State {
    WithInbox(WithSide(s, who, Sent(a)), Peer(who), Inbox(s, Peer(who)) + [Stamp(a, body)])
  }

  /** The step relation. A side that closed or raised does nothing more. */
  function Step(s: State, act: Action, cfg: Setup): Option<State> {
    var a := SideOf(s, act.who);
    if a.closed || a.raised then None else
    match act
    case Handshake(Lc) => LcHandshake(s, cfg)
    case Handshake(Sdx) => SdxHandshake(s, cfg)
    case Arm(who) => if InMain(s, who) && !a.armed then Some(WithSide(s, who, ArmSide(a))) else None
    case Beat(who) => if InMain(s, who) && a.armed then Some(Post(s, who, a.(armed := false), HeartbeatRequest))
      else None
    case Receive(who) =>
      if InMain(s, who) && !a.replying && Inbox(s, who) != [] then
        Some(WithInbox(WithSide(s, who, ReceiveSide(a, Inbox(s, who)[0])), who, Inbox(s, who)[1..]))
      else None
    case Reply(who) =>
      if InMain(s, who) && a.replying then Some(Post(s, who, a.(replying := false), HeartbeatResponse)) else None
    case Send(who, payload) => if InMain(s, who) then Some(Post(s, who, a, Other(payload))) else None
  }

  ghost predicate Moves(s: State, t: State, cfg: Setup) {
    exists act :: Step(s, act, cfg) == Some(t)
  }

  ghost function Moving(cfg: Setup): (State, State) -> bool {
    (s, t) => Moves(s, t, cfg)
  }

  /** A run: it starts fresh and every move is a step. */
  ghost predicate IsRun(run: seq<State>, cfg: Setup) {
    |run| > 0 && run[0] == Initial() && Follows(run, Moving(cfg))
  }

  // ----- Numbering -----

  /** The packets in flight carry consecutive numbers up to the sender's next one, the receiver has
      acknowledged the one before them, and nobody acknowledges what was not sent. */
  ghost predicate Numbered(a: Side, b: Side, ch: Channel) {
    && |ch| <= a.msgNum
    && (forall i :: 0 <= i < |ch| ==> ch[i].num == a.msgNum - |ch| + i && ch[i].ack <= b.msgNum)
    && b.msgAck == (if a.msgNum == |ch| then 0 else a.msgNum - |ch| - 1)
    && a.msgAck <= b.msgNum
    && !b.warned
  }

  ghost predicate NumbersOk(s: State) {
    Numbered(s.lc, s.sdx, s.up) && Numbered(s.sdx, s.lc, s.down)
  }

  /** The numbering fields agree. */
  predicate SameNumbers(a: Side, b: Side) {
    a.msgNum == b.msgNum && a.msgAck == b.msgAck && a.warned == b.warned
  }

  /** One side sent a packet. */
  ghost predicate Sends(s: State, t: State, who: Who) {
    && SameNumbers(SideOf(t, who), Sent(SideOf(s, who))) && SameNumbers(SideOf(t, Peer(who)), SideOf(s, Peer(who)))
    && Inbox(t, who) == Inbox(s, who)
    && |Inbox(t, Peer(who))| > 0
    && Inbox(t, Peer(who))
       == Inbox(s, Peer(who)) + [Stamp(SideOf(s, who), Inbox(t, Peer(who))[|Inbox(t, Peer(who))| - 1].body)]
  }

  /** One side took a packet. */
  ghost predicate Takes(s: State, t: State, who: Who) {
    && Inbox(s, who) != [] && Inbox(t, who) == Inbox(s, who)[1..] && Inbox(t, Peer(who)) == Inbox(s, Peer(who))
    && SameNumbers(SideOf(t, who), Got(SideOf(s, who), Inbox(s, who)[0]))
       && SameNumbers(SideOf(t, Peer(who)), SideOf(s, Peer(who)))
  }

  ghost predicate Stays(s: State, t: State) {
    SameNumbers(t.lc, s.lc) && SameNumbers(t.sdx, s.sdx) && t.up == s.up && t.down == s.down
  }

  lemma PostSends(s: State, who: Who, a: Side, body: Message)
    requires SameNumbers(a, SideOf(s, who))
    ensures Sends(s, Post(s, who, a, body), who)
  {
  }

  lemma ReceiveTakes(s: State, who: Who)
    requires Inbox(s, who) != []
    ensures Takes(s,
                  WithInbox(WithSide(s, who, ReceiveSide(SideOf(s, who), Inbox(s, who)[0])), who, Inbox(s, who)[1..]),
                  who)
  {
  }

  lemma StepShape(s: State, act: Action, cfg: Setup)
    requires Step(s, act, cfg).Some?
    ensures var t := Step(s, act, cfg).value;
            Sends(s, t, act.who) || Takes(s, t, act.who) || Stays(s, t)
  {
    var a := SideOf(s, act.who);
    match act
    case Handshake(Lc) => LcShape(s, cfg);
    case Handshake(Sdx) => SdxShape(s, cfg);
    case Arm(who) =>
    case Beat(who) => PostSends(s, who, a.(armed := false), HeartbeatRequest);
    case Receive(who) => ReceiveTakes(s, who);
    case Reply(who) => PostSends(s, who, a.(replying := false), HeartbeatResponse);
    case Send(who, payload) => PostSends(s, who, a, Other(payload));
  }

  lemma LcShape(s: State, cfg: Setup)
    requires LcHandshake(s, cfg).Some?
    ensures var t := LcHandshake(s, cfg).value; Sends(s, t, Lc) || Takes(s, t, Lc)
  {
    if s.lcStage == Starting || s.lcStage == GotRequest || s.lcStage == Asking {
      LcSends(s, cfg);
    } else {
      LcTakes(s);
    }
  }

  lemma LcSends(s: State, cfg: Setup)
    requires s.lcStage == Starting || s.lcStage == GotRequest || s.lcStage == Asking
    ensures Sends(s, LcHandshake(s, cfg).value, Lc)
  {
  }

  lemma LcTakes(s: State)
    requires LcReceives(s).Some?
    ensures Takes(s, LcReceives(s).value, Lc)
  {
  }

  lemma SdxShape(s: State, cfg: Setup)
    requires SdxHandshake(s, cfg).Some?
    ensures var t := SdxHandshake(s, cfg).value; Sends(s, t, Sdx) || Takes(s, t, Sdx) || Stays(s, t)
  {
    if s.sdxStage == Granting && s.rules == [] {
      assert Stays(s, SdxHandshake(s, cfg).value);
    } else if s.sdxStage == GotHello || s.sdxStage == GotCapabilities || s.sdxStage == Granting
      || s.sdxStage == Finishing {
      SdxSends(s, cfg);
    } else {
      SdxTakes(s, cfg);
    }
  }

  lemma SdxSends(s: State, cfg: Setup)
    requires s.sdxStage == GotHello || s.sdxStage == GotCapabilities || s.sdxStage == Finishing
             || (s.sdxStage == Granting && s.rules != [])
    ensures Sends(s, SdxHandshake(s, cfg).value, Sdx)
  {
  }

  lemma SdxTakes(s: State, cfg: Setup)
    requires SdxReceives(s, cfg).Some?
    ensures Takes(s, SdxReceives(s, cfg).value, Sdx)
  {
  }

  lemma SendNumbered(a: Side, b: Side, up: Channel, down: Channel, a': Side, b': Side, body: Message)
    requires Numbered(a, b, up) && Numbered(b, a, down) && SameNumbers(a', Sent(a)) && SameNumbers(b', b)
    ensures Numbered(a', b', up + [Stamp(a, body)]) && Numbered(b', a', down)
  {
  }

  lemma ReceiveNumbered(a: Side, b: Side, ch: Channel, back: Channel, a': Side, b': Side)
    requires Numbered(a, b, ch) && Numbered(b, a, back) && ch != [] && SameNumbers(b', Got(b, ch[0]))
             && SameNumbers(a', a)
    ensures Numbered(a', b', ch[1..]) && Numbered(b', a', back)
  {
  }

  /** Neither "went backwards" complaint is ever printed: every step keeps the numbering in order. */
  lemma StepNumbers(s: State, act: Action, cfg: Setup)
    requires NumbersOk(s) && Step(s, act, cfg).Some?
    ensures NumbersOk(Step(s, act, cfg).value)
  {
    var t := Step(s, act, cfg).value;
    var who := act.who;
    StepShape(s, act, cfg);
    var a, b := SideOf(s, who), SideOf(s, Peer(who));
    var a', b' := SideOf(t, who), SideOf(t, Peer(who));
    var inbox, outbox := Inbox(s, who), Inbox(s, Peer(who));
    assert Numbered(a, b, outbox) && Numbered(b, a, inbox);
    if Sends(s, t, who) {
      SendNumbered(a, b, outbox, inbox, a', b', Inbox(t, Peer(who))[|Inbox(t, Peer(who))| - 1].body);
    } else if Takes(s, t, who) {
      ReceiveNumbered(b, a, inbox, outbox, b', a');
    }
  }

  // ----- Heartbeats -----

  function Beats(ch: Channel): nat {
    if ch == [] then 0 else (if ch[0].body == HeartbeatRequest then 1 else 0) + Beats(ch[1..])
  }

  function Echoes(ch: Channel): nat {
    if ch == [] then 0 else (if ch[0].body == HeartbeatResponse then 1 else 0) + Echoes(ch[1..])
  }

  lemma {:induction false} CountAppend(ch: Channel, p: Packet)
    ensures Beats(ch + [p]) == Beats(ch) + if p.body == HeartbeatRequest then 1 else 0
    ensures Echoes(ch + [p]) == Echoes(ch) + if p.body == HeartbeatResponse then 1 else 0
  {
    if ch == [] {
      assert ch + [p] == [p];
    } else {
      CountAppend(ch[1..], p);
      assert (ch + [p])[1..] == ch[1..] + [p];
    }
  }

  function One(b: bool): nat {
    if b then 1 else 0
  }

  /** The flag of `a` is up exactly while one heartbeat is on its way: about to be sent, travelling,
      being answered by `b`, or travelling back. */
  predicate Tracked(a: Side, b: Side, outbox: Channel, inbox: Channel) {
    One(a.armed) + Beats(outbox) + One(b.replying) + Echoes(inbox) == One(a.outstanding)
  }

  predicate HeartbeatsOk(s: State) {
    Tracked(s.lc, s.sdx, s.up, s.down) && Tracked(s.sdx, s.lc, s.down, s.up)
  }

  predicate Quiet(a: Side) {
    !a.outstanding && !a.armed && !a.replying && !a.closed
  }

  // ----- Where a run can be -----

  predicate IsMainBody(m: Message) {
    m.HeartbeatRequest? || m.HeartbeatResponse? || m.Other?
  }

  predicate MainOnly(ch: Channel) {
    forall i :: 0 <= i < |ch| ==> IsMainBody(ch[i].body)
  }

  /** How the rules are spread while they are handed over. */
  predicate Split(s: State, cfg: Setup) {
    s.installed + s.rules == cfg.All() && s.left == |s.rules|
  }

  /** The places a run can be, in the order it visits them; the middle four repeat once per rule. */
  predicate Place(s: State, cfg: Setup) {
    var (l, x) := (s.lcStage, s.sdxStage);
    if l == Starting then
      x == AwaitHello && s.up == [] && s.down == [] && s.installed == []
    else if l == AwaitRequest then
      && s.installed == []
      && ((x == AwaitHello && |s.up| == 1 && s.up[0].body == Hello(cfg.name) && s.down == [])
          || (x == GotHello && s.up == [] && s.down == [] && s.rules == cfg.All())
          || (x == AwaitCapabilities && s.up == [] && |s.down| == 1 && s.down[0].body.CapabilitiesRequest?
             && s.rules == cfg.All()))
    else if l == GotRequest then
      x == AwaitCapabilities && s.up == [] && s.down == [] && s.installed == [] && s.rules == cfg.All()
    else if l == AwaitCount then
      && s.installed == [] && s.rules == cfg.All()
      && ((x == AwaitCapabilities && |s.up| == 1 && s.up[0].body.CapabilitiesResponse? && s.down == [])
          || (x == GotCapabilities && s.up == [] && s.down == [])
          || (x == Serving && s.up == [] && |s.down| == 1 && s.down[0].body == InitialRuleCount(|cfg.All()|)))
    else if l == Asking then
      x == Serving && s.up == [] && s.down == [] && Split(s, cfg)
    else if l == AwaitRule then
      || (x == Serving && |s.up| == 1 && s.up[0].body == InitialRuleRequest(s.left) && s.down == [] && Split(s, cfg)
         && s.left > 0)
      || (x == Granting && s.up == [] && s.down == [] && Split(s, cfg) && s.left > 0)
      || (x == Serving && s.up == [] && |s.down| == 1 && s.down[0].body.InstallRule?
          && s.installed + [s.down[0].body.rule] + s.rules == cfg.All() && s.left == |s.rules| + 1)
    else if l == AwaitMain then
      && s.installed == cfg.All() && s.rules == [] && s.left == 0
      && ((x == Serving && |s.up| == 1 && s.up[0].body.InitialRulesComplete? && s.down == [])
          || (x == Finishing && s.up == [] && s.down == [])
          || (x == SdxMain && s.up == [] && s.down != [] && s.down[0].body.TransitionToMain? && MainOnly(s.down[1..])))
    else
      x == SdxMain && MainOnly(s.up) && MainOnly(s.down) && s.installed == cfg.All() && s.rules == [] && s.left == 0
  }

  /** The LC reports completion when it has asked for all rules, and not before. */
  predicate CompletedOk(s: State) {
    s.completed <==> s.lcStage == AwaitMain || s.lcStage == LcMain
  }

  /** The invariant of every run. */
  predicate Inv(s: State, cfg: Setup) {
    && Place(s, cfg) && HeartbeatsOk(s)
    && !s.lc.raised && !s.sdx.raised
    && (s.lcStage != LcMain ==> Quiet(s.lc)) && (s.sdxStage != SdxMain ==> Quiet(s.sdx))
    && CompletedOk(s) && ClosedOk(s.lc) && ClosedOk(s.sdx)
  }

  /** A side closes only because a heartbeat of its own was still on its way when the next was due. */
  predicate ClosedOk(a: Side) {
    a.closed ==> a.outstanding
  }

  /** Handshake moves still to come: four per rule and twelve around them. */
  function Rank(s: State, cfg: Setup): int {
    match s.lcStage
    case Starting => 4 * |cfg.All()| + 12
    case AwaitRequest => 4 * |cfg.All()| + if s.sdxStage == AwaitHello then 11
      else if s.sdxStage == GotHello then 10 else 9
    case GotRequest => 4 * |cfg.All()| + 8
    case AwaitCount => 4 * |cfg.All()| + if s.sdxStage == AwaitCapabilities then 7
      else if s.sdxStage == GotCapabilities then 6 else 5
    case Asking => 4 * s.left + 4
    case AwaitRule => 4 * s.left + if s.sdxStage == Granting then 2 else if s.up != [] then 3 else 1
    case AwaitMain => if s.sdxStage == Serving then 3 else if s.sdxStage == Finishing then 2 else 1
    case LcMain => 0
  }

  predicate BothMain(s: State) {
    s.lcStage == LcMain && s.sdxStage == SdxMain
  }

  predicate LcToSend(s: State) {
    s.lcStage == Starting || s.lcStage == GotRequest || s.lcStage == Asking
  }

  predicate SdxToSend(s: State) {
    s.sdxStage == GotHello || s.sdxStage == GotCapabilities || s.sdxStage == Granting || s.sdxStage == Finishing
  }

  /** Where the next move of the handshake leads; heartbeats and errors apart. */
  predicate Advances(s: State, t: State, cfg: Setup) {
    Place(t, cfg) && Rank(t, cfg) == Rank(s, cfg) - 1
  }

  predicate SameHeartbeat(a: Side, b: Side) {
    a.outstanding == b.outstanding && a.armed == b.armed && a.replying == b.replying
  }

  /** A handshake move leaves the mover's heartbeat and its troubles alone. */
  predicate SameTroubles(a: Side, b: Side) {
    SameHeartbeat(a, b) && a.closed == b.closed && a.raised == b.raised
  }

  predicate IsBeat(m: Message) {
    m.HeartbeatRequest? || m.HeartbeatResponse?
  }

  /** The channel has one more packet at its end, which is not about heartbeats. */
  predicate Longer(ch: Channel, ch': Channel) {
    |ch'| > 0 && ch' == ch + [ch'[|ch'| - 1]] && !IsBeat(ch'[|ch'| - 1].body)
  }

  /** The channel has lost its first packet, which was not about heartbeats. */
  predicate Shorter(ch: Channel, ch': Channel) {
    ch != [] && ch' == ch[1..] && !IsBeat(ch[0].body)
  }

  lemma LongerTracked(a: Side, b: Side, ch: Channel, back: Channel, a': Side, ch': Channel)
    requires Tracked(a, b, ch, back) && Tracked(b, a, back, ch) && Longer(ch, ch') && SameHeartbeat(a', a)
    ensures Tracked(a', b, ch', back) && Tracked(b, a', back, ch')
  {
    CountAppend(ch, ch'[|ch'| - 1]);
  }

  lemma ShorterTracked(a: Side, b: Side, ch: Channel, back: Channel, a': Side, ch': Channel)
    requires Tracked(a, b, back, ch) && Tracked(b, a, ch, back) && Shorter(ch, ch') && SameHeartbeat(a', a)
    ensures Tracked(a', b, back, ch') && Tracked(b, a', ch', back)
  {
  }

  lemma LcSendPlaces(s: State, cfg: Setup)
    requires Place(s, cfg) && LcToSend(s)
    ensures var t := LcHandshake(s, cfg).value; Advances(s, t, cfg)
  {
  }

  lemma LcSendChanges(s: State, cfg: Setup)
    requires LcToSend(s) && CompletedOk(s)
    ensures var t := LcHandshake(s, cfg).value;
            && SameTroubles(t.lc, s.lc) && t.sdx == s.sdx && t.sdxStage == s.sdxStage
            && Longer(s.up, t.up) && t.down == s.down && CompletedOk(t)
  {
  }

  lemma LcTakePlaces(s: State, cfg: Setup)
    requires Place(s, cfg) && !LcToSend(s) && s.lcStage != LcMain && s.down != []
    ensures var t := LcReceives(s).value; Advances(s, t, cfg) && SameTroubles(t.lc, s.lc) && Shorter(s.down, t.down)
  {
    if s.lcStage == AwaitRule { RulePlaces(s, cfg); }
  }

  lemma RulePlaces(s: State, cfg: Setup)
    requires Place(s, cfg) && s.lcStage == AwaitRule && s.down != []
    ensures Advances(s, LcReceives(s).value, cfg)
  {
    assert s.installed + [s.down[0].body.rule] + s.rules == (s.installed + [s.down[0].body.rule]) + s.rules;
  }

  lemma LcTakeChanges(s: State, cfg: Setup)
    requires Place(s, cfg) && !LcToSend(s) && s.lcStage != LcMain && s.down != [] && CompletedOk(s)
    ensures var t := LcReceives(s).value;
            t.sdx == s.sdx && t.sdxStage == s.sdxStage && t.up == s.up && CompletedOk(t)
  {
  }

  lemma SdxSendPlaces(s: State, cfg: Setup)
    requires Place(s, cfg) && SdxToSend(s)
    ensures SdxHandshake(s, cfg).Some? && Advances(s, SdxHandshake(s, cfg).value, cfg)
  {
    if s.sdxStage == Granting {
      GrantPlaces(s, cfg);
    }
  }

  lemma GrantPlaces(s: State, cfg: Setup)
    requires Place(s, cfg) && s.sdxStage == Granting
    ensures SdxHandshake(s, cfg).Some? && Advances(s, SdxHandshake(s, cfg).value, cfg)
  {
    assert s.installed + [s.rules[0]] + s.rules[1..] == s.installed + s.rules;
  }

  lemma SdxSendChanges(s: State, cfg: Setup)
    requires Place(s, cfg) && SdxToSend(s) && SdxHandshake(s, cfg).Some?
    ensures var t := SdxHandshake(s, cfg).value;
            && SameTroubles(t.sdx, s.sdx) && t.lc == s.lc && t.lcStage == s.lcStage && t.up == s.up
            && Longer(s.down, t.down) && t.completed == s.completed
  {
  }

  lemma SdxTakePlaces(s: State, cfg: Setup)
    requires Place(s, cfg) && !SdxToSend(s) && s.sdxStage != SdxMain && s.up != []
    ensures var t := SdxReceives(s, cfg).value; Advances(s, t, cfg) && SameTroubles(t.sdx, s.sdx) && Shorter(s.up, t.up)
  {
    assert s.sdxStage == AwaitHello ==> [] + cfg.All() == cfg.All();
    assert s.sdxStage == AwaitCapabilities ==> s.installed + s.rules == cfg.All();
  }

  lemma SdxTakeChanges(s: State, cfg: Setup)
    requires s.up != []
    ensures var t := SdxReceives(s, cfg).value;
            t.lc == s.lc && t.lcStage == s.lcStage && t.down == s.down && t.completed == s.completed
  {
  }

  /** A handshake move keeps the invariant and is one move closer to the main phase. */
  lemma LcMoves(s: State, cfg: Setup)
    requires Inv(s, cfg) && LcHandshake(s, cfg).Some?
    ensures var t := LcHandshake(s, cfg).value; Inv(t, cfg) && Rank(t, cfg) == Rank(s, cfg) - 1
  {
    var t := LcHandshake(s, cfg).value;
    if LcToSend(s) {
      LcSendPlaces(s, cfg);
      LcSendChanges(s, cfg);
      LongerTracked(s.lc, s.sdx, s.up, s.down, t.lc, t.up);
    } else {
      LcTakePlaces(s, cfg);
      LcTakeChanges(s, cfg);
      ShorterTracked(s.lc, s.sdx, s.down, s.up, t.lc, t.down);
    }
  }

  lemma SdxMoves(s: State, cfg: Setup)
    requires Inv(s, cfg) && SdxHandshake(s, cfg).Some?
    ensures var t := SdxHandshake(s, cfg).value; Inv(t, cfg) && Rank(t, cfg) == Rank(s, cfg) - 1
  {
    var t := SdxHandshake(s, cfg).value;
    if SdxToSend(s) {
      SdxSendPlaces(s, cfg);
      SdxSendChanges(s, cfg);
      LongerTracked(s.sdx, s.lc, s.down, s.up, t.sdx, t.down);
    } else {
      SdxTakePlaces(s, cfg);
      SdxTakeChanges(s, cfg);
      ShorterTracked(s.sdx, s.lc, s.up, s.down, t.sdx, t.up);
    }
  }

  // ----- Moves of the main phase -----

  /** What a move of the main phase may touch: heartbeats of one side, and main-phase packets. */
  lemma MainSend(s: State, who: Who, a: Side, body: Message, cfg: Setup)
    requires Inv(s, cfg) && InMain(s, who) && IsMainBody(body)
    ensures var t := Post(s, who, a, body); Place(t, cfg) && Rank(t, cfg) == Rank(s, cfg)
  {
    var t := Post(s, who, a, body);
    var ch := Inbox(s, Peer(who));
    assert Inbox(t, Peer(who)) == ch + [Stamp(a, body)];
    if who == Sdx && ch != [] { assert t.down[1..] == s.down[1..] + [Stamp(a, body)]; }
  }

  lemma MainTake(s: State, who: Who, a: Side, cfg: Setup)
    requires Inv(s, cfg) && InMain(s, who) && Inbox(s, who) != []
    ensures var t := WithInbox(WithSide(s, who, a), who, Inbox(s, who)[1..]);
            && Place(t, cfg)
            && Rank(t, cfg) == Rank(s, cfg)
    ensures IsMainBody(Inbox(s, who)[0].body)
  {
  }

  lemma SendTracked(a: Side, b: Side, outbox: Channel, inbox: Channel, a': Side, body: Message)
    requires Tracked(a, b, outbox, inbox) && Tracked(b, a, inbox, outbox)
    requires || (body == HeartbeatRequest && a.armed && SameHeartbeat(a', a.(armed := false)))
             || (body == HeartbeatResponse && a.replying && SameHeartbeat(a', a.(replying := false)))
             || (body.Other? && SameHeartbeat(a', a))
    ensures Tracked(a', b, outbox + [Stamp(a, body)], inbox) && Tracked(b, a', inbox, outbox + [Stamp(a, body)])
  {
    CountAppend(outbox, Stamp(a, body));
  }

  /** A response finds the flag up: the invariant leaves room for no other. */
  lemma TakeTracked(a: Side, b: Side, outbox: Channel, inbox: Channel)
    requires Tracked(a, b, outbox, inbox) && Tracked(b, a, inbox, outbox) && inbox != [] && !a.replying && !a.raised
    requires IsMainBody(inbox[0].body)
    ensures var a' := ReceiveSide(a, inbox[0]);
            Tracked(a', b, outbox, inbox[1..]) && Tracked(b, a', inbox[1..], outbox) && !a'.raised
  {
  }

  /** What a side may send in the main phase, and what that does to its heartbeat. */
  predicate MaySend(a: Side, a': Side, body: Message) {
    || (body == HeartbeatRequest && a.armed && a' == a.(armed := false))
    || (body == HeartbeatResponse && a.replying && a' == a.(replying := false))
    || (body.Other? && a' == a)
  }

  lemma PostTracked(s: State, who: Who, a': Side, body: Message)
    requires HeartbeatsOk(s) && MaySend(SideOf(s, who), a', body)
    ensures HeartbeatsOk(Post(s, who, a', body))
  {
    var a, b := SideOf(s, who), SideOf(s, Peer(who));
    assert Tracked(a, b, Inbox(s, Peer(who)), Inbox(s, who)) && Tracked(b, a, Inbox(s, who), Inbox(s, Peer(who)));
    SendTracked(a, b, Inbox(s, Peer(who)), Inbox(s, who), Sent(a'), body);
    assert Stamp(a', body) == Stamp(a, body);
  }

  lemma PostKeeps(s: State, who: Who, a': Side, body: Message, cfg: Setup)
    requires Inv(s, cfg) && InMain(s, who) && !a'.raised && MaySend(SideOf(s, who), a', body)
    ensures var t := Post(s, who, a', body); Inv(t, cfg) && Rank(t, cfg) == Rank(s, cfg)
  {
    PostTracked(s, who, a', body);
    MainSend(s, who, a', body, cfg);
  }

  lemma ReceiveKeeps(s: State, who: Who, cfg: Setup)
    requires Inv(s, cfg) && InMain(s, who) && Inbox(s, who) != []
    requires !SideOf(s, who).replying && !SideOf(s, who).closed
    ensures var t :=
            WithInbox(WithSide(s, who, ReceiveSide(SideOf(s, who), Inbox(s, who)[0])), who, Inbox(s, who)[1..]);
            Inv(t, cfg) && Rank(t, cfg) == Rank(s, cfg)
  {
    var a, b := SideOf(s, who), SideOf(s, Peer(who));
    assert Tracked(a, b, Inbox(s, Peer(who)), Inbox(s, who)) && Tracked(b, a, Inbox(s, who), Inbox(s, Peer(who)));
    MainTake(s, who, ReceiveSide(a, Inbox(s, who)[0]), cfg);
    TakeTracked(a, b, Inbox(s, Peer(who)), Inbox(s, who));
  }

  lemma MainMoves(s: State, act: Action, cfg: Setup)
    requires Inv(s, cfg) && !act.Handshake? && Step(s, act, cfg).Some?
    ensures var t := Step(s, act, cfg).value; Inv(t, cfg) && Rank(t, cfg) == Rank(s, cfg)
  {
    var who := act.who;
    var a := SideOf(s, who);
    match act {
      case Arm(_) =>
      case Beat(_) => PostKeeps(s, who, a.(armed := false), HeartbeatRequest, cfg);
      case Receive(_) => ReceiveKeeps(s, who, cfg);
      case Reply(_) => PostKeeps(s, who, a.(replying := false), HeartbeatResponse, cfg);
      case Send(_, payload) => PostKeeps(s, who, a, Other(payload), cfg);
    }
  }

  // ----- What a step does, error branches included -----

  /** A side that closed or raised does nothing more. */
  lemma GoneIsSilent(s: State, act: Action, cfg: Setup)
    requires SideOf(s, act.who).closed || SideOf(s, act.who).raised
    ensures Step(s, act, cfg) == None
  {
  }

  /** The message each side waits for during the handshake. */
  predicate LcAwaits(stage: LcStage, body: Message) {
    match body
    case CapabilitiesRequest => stage == AwaitRequest
    case InitialRuleCount(_) => stage == AwaitCount
    case InstallRule(_) => stage == AwaitRule
    case TransitionToMain => stage == AwaitMain
    case _ => false
  }

  /** The controller also insists that no rule is left when it is told that all have arrived. */
  predicate SdxAwaits(stage: SdxStage, rules: seq<Rule>, body: Message) {
    match body
    case Hello(_) => stage == AwaitHello
    case CapabilitiesResponse => stage == AwaitCapabilities
    case InitialRuleRequest(_) => stage == Serving
    case InitialRulesComplete => stage == Serving && rules == []
    case _ => false
  }

  /** A waiting side takes the next packet, and raises exactly if that is not what it waits for. */
  lemma LcTakesExactly(s: State, cfg: Setup)
    requires s.lcStage.AwaitRequest? || s.lcStage.AwaitCount? || s.lcStage.AwaitRule? || s.lcStage.AwaitMain?
    requires !s.lc.closed && !s.lc.raised
    ensures var r := Step(s, Handshake(Lc), cfg);
            && (r.Some? <==> s.down != [])
            && (r.Some? ==> (r.value.lc.raised <==> !LcAwaits(s.lcStage, s.down[0].body)))
  {
  }

  lemma SdxTakesExactly(s: State, cfg: Setup)
    requires s.sdxStage.AwaitHello? || s.sdxStage.AwaitCapabilities? || s.sdxStage.Serving?
    requires !s.sdx.closed && !s.sdx.raised
    ensures var r := Step(s, Handshake(Sdx), cfg);
            && (r.Some? <==> s.up != [])
            && (r.Some? ==> (r.value.sdx.raised <==> !SdxAwaits(s.sdxStage, s.rules, s.up[0].body)))
  {
  }

  /** In the main phase a side raises exactly on a response it does not expect and on messages of the handshake. */
  lemma MainTakesExactly(s: State, who: Who, cfg: Setup)
    requires InMain(s, who)
    requires var a := SideOf(s, who); !a.closed && !a.raised && !a.replying
    ensures var r, a := Step(s, Receive(who), cfg), SideOf(s, who);
            && (r.Some? <==> Inbox(s, who) != [])
            && (r.Some? ==>
                  var body := Inbox(s, who)[0].body;
                  SideOf(r.value, who).raised <==> (body.HeartbeatResponse? && !a.outstanding) || !IsMainBody(body))
  {
  }

  /** In either phase a side complains exactly if a packet it takes acknowledges what was not sent yet or numbers
      backwards. */
  lemma WarnsExactly(s: State, act: Action, cfg: Setup)
    requires Step(s, act, cfg).Some? && !SideOf(s, act.who).warned
    ensures var t, who := Step(s, act, cfg).value, act.who;
            SideOf(t, who).warned <==>
            && Inbox(t, who) != Inbox(s, who)
            && (Inbox(s, who)[0].ack > SideOf(s, who).msgNum || Inbox(s, who)[0].num < SideOf(s, who).msgAck)
  {
    StepShape(s, act, cfg);
    var t := Step(s, act, cfg).value;
    if Takes(s, t, act.who) { assert |Inbox(t, act.who)| == |Inbox(s, act.who)| - 1; }
  }

  /** The heartbeat timer. It closes the side exactly if the last heartbeat has not come back. Otherwise it raises the
      flag and then puts one request at the end of what the peer will receive. */
  lemma HeartbeatTick(s: State, who: Who, cfg: Setup)
    requires InMain(s, who) && var a := SideOf(s, who); !a.closed && !a.raised && !a.armed
    ensures var a, r := SideOf(s, who), Step(s, Arm(who), cfg);
            && r.Some? && (SideOf(r.value, who).closed <==> a.outstanding)
            && (!a.outstanding ==>
                  var t := r.value;
                  && SideOf(t, who).outstanding && SideOf(t, who).armed && t.up == s.up && t.down == s.down
                  && var u := Step(t, Beat(who), cfg);
                     && u.Some? && !SideOf(u.value, who).armed && SideOf(u.value, who).outstanding
                     && !SideOf(u.value, who).closed && Inbox(u.value, who) == Inbox(s, who)
                     && Inbox(u.value, Peer(who))
                        == Inbox(s, Peer(who)) + [Packet(a.msgNum, a.msgAck, HeartbeatRequest)])
  {
  }

  /** In the main phase any other message can be sent at any time. */
  lemma SendsAnything(s: State, who: Who, payload: int, cfg: Setup)
    requires InMain(s, who) && !SideOf(s, who).closed && !SideOf(s, who).raised
    ensures var a, r := SideOf(s, who), Step(s, Send(who, payload), cfg);
            r.Some? && Inbox(r.value, Peer(who)) == Inbox(s, Peer(who)) + [Packet(a.msgNum, a.msgAck, Other(payload))]
  {
  }

  // ----- Safety of every run -----

  lemma StepKeeps(s: State, act: Action, cfg: Setup)
    requires Inv(s, cfg) && NumbersOk(s) && Step(s, act, cfg).Some?
    ensures var t := Step(s, act, cfg).value;
            Inv(t, cfg) && NumbersOk(t) && Rank(t, cfg) == Rank(s, cfg) - if act.Handshake? then 1 else 0
  {
    StepNumbers(s, act, cfg);
    match act
    case Handshake(Lc) => LcMoves(s, cfg);
    case Handshake(Sdx) => SdxMoves(s, cfg);
    case _ => MainMoves(s, act, cfg);
  }

  lemma MoveKeeps(s: State, t: State, cfg: Setup)
    requires Inv(s, cfg) && NumbersOk(s) && (Moves(s, t, cfg) || HandshakeMove(s, t, cfg))
    ensures Inv(t, cfg) && NumbersOk(t) && Rank(t, cfg) <= Rank(s, cfg)
    ensures HandshakeMove(s, t, cfg) ==> Rank(t, cfg) < Rank(s, cfg)
  {
    if Step(s, Handshake(Lc), cfg) == Some(t) {
      StepKeeps(s, Handshake(Lc), cfg);
    } else if Step(s, Handshake(Sdx), cfg) == Some(t) {
      StepKeeps(s, Handshake(Sdx), cfg);
    } else {
      var act :| Step(s, act, cfg) == Some(t);
      StepKeeps(s, act, cfg);
    }
  }

  ghost function Invariant(cfg: Setup): State -> bool {
    s => Inv(s, cfg) && NumbersOk(s)
  }

  lemma FreshPlace(s: State, cfg: Setup)
    requires s.lcStage == Starting && s.sdxStage == AwaitHello && s.up == [] && s.down == [] && s.installed == []
    requires Quiet(s.lc) && Quiet(s.sdx) && !s.lc.raised && !s.sdx.raised && !s.completed
    ensures Inv(s, cfg)
  {
    assert Place(s, cfg);
  }

  lemma FreshNumbers(s: State)
    requires s == Initial()
    ensures NumbersOk(s)
  {
  }

  lemma InitialInv(s: State, cfg: Setup)
    requires s == Initial()
    ensures Invariant(cfg)(s)
  {
    FreshPlace(s, cfg);
    FreshNumbers(s);
  }

  lemma FromInvariant(s: State, cfg: Setup)
    requires Invariant(cfg)(s)
    ensures Inv(s, cfg) && NumbersOk(s)
  {
  }

  lemma MovesKeep(cfg: Setup)
    ensures Kept(Invariant(cfg), Moving(cfg))
  {
    forall s, t | Inv(s, cfg) && NumbersOk(s) && Moves(s, t, cfg) ensures Inv(t, cfg) && NumbersOk(t) {
      MoveKeeps(s, t, cfg);
    }
  }

  /** What holds in every reachable state. */
  predicate Safe(s: State, cfg: Setup) {
    && !s.lc.raised && !s.sdx.raised
    && !s.lc.warned && !s.sdx.warned
    && (s.sdxStage == Granting ==> s.rules != [])
    && (s.completed ==> s.installed == cfg.All())
    && s.installed <= cfg.All()
    && (s.lcStage == Asking || s.lcStage == AwaitRule ==> s.left == |s.rules| + Granted(s.down))
    && HeartbeatsOk(s)
    && (s.lc.closed ==> s.lc.outstanding) && (s.sdx.closed ==> s.sdx.outstanding)
  }

  /** Rules on their way to the LC. */
  function Granted(ch: Channel): nat {
    if ch == [] then 0 else (if ch[0].body.InstallRule? then 1 else 0) + Granted(ch[1..])
  }

  lemma InvSafe(s: State, cfg: Setup)
    requires Inv(s, cfg) && NumbersOk(s)
    ensures Safe(s, cfg)
  {
    if |s.down| == 1 { assert s.down[1..] == []; }
    if s.lcStage == AwaitRule && s.down != [] {
      assert cfg.All() == s.installed + ([s.down[0].body.rule] + s.rules);
    }
  }

  /** In every state of every run: nobody raises, no "went backwards" complaint is printed, no empty
      list is indexed, the LC's completion callback ran only with exactly the controller's rules in
      order, the LC's count is what the controller has left plus what is in flight, each heartbeat flag is
      up exactly while one of its heartbeats is on its way, and a side has closed only with its flag up. */
  lemma RunSafe(run: seq<State>, i: nat, cfg: Setup)
    requires IsRun(run, cfg) && i < |run|
    ensures Safe(run[i], cfg)
  {
    InitialInv(run[0], cfg);
    MovesKeep(cfg);
    Always(run, i, Invariant(cfg), Moving(cfg));
    FromInvariant(run[i], cfg);
    InvSafe(run[i], cfg);
  }

  // ----- Progress -----

  predicate HandshakeEnabled(s: State, cfg: Setup) {
    Step(s, Handshake(Lc), cfg).Some? || Step(s, Handshake(Sdx), cfg).Some?
  }

  predicate HandshakeMove(s: State, t: State, cfg: Setup) {
    Step(s, Handshake(Lc), cfg) == Some(t) || Step(s, Handshake(Sdx), cfg) == Some(t)
  }

  /** The handshake cannot get stuck: until both sides are in the main phase, one of them can move. */
  lemma NeverStuck(s: State, cfg: Setup)
    requires Inv(s, cfg) && !BothMain(s)
    ensures HandshakeEnabled(s, cfg)
  {
  }

  lemma RankPositive(s: State, cfg: Setup)
    requires Inv(s, cfg)
    ensures Rank(s, cfg) >= 0
    ensures Rank(s, cfg) == 0 <==> BothMain(s)
  {
  }

  ghost function Ranked(cfg: Setup): State -> int {
    s => Rank(s, cfg)
  }

  ghost function Enabled(cfg: Setup): State -> bool {
    s => HandshakeEnabled(s, cfg)
  }

  ghost function Shaking(cfg: Setup): (State, State) -> bool {
    (s, t) => HandshakeMove(s, t, cfg)
  }

  ghost function Done(): State -> bool {
    s => BothMain(s)
  }

  lemma HandshakeDescends(cfg: Setup)
    ensures Descends(Invariant(cfg), Moving(cfg), Ranked(cfg), Enabled(cfg), Shaking(cfg), Done())
  {
    forall s, t | Invariant(cfg)(s) && Moving(cfg)(s, t) ensures Ranked(cfg)(t) <= Ranked(cfg)(s) {
      MoveKeeps(s, t, cfg);
    }
    forall s | Invariant(cfg)(s) ensures Ranked(cfg)(s) >= 0 && (Done()(s) || Enabled(cfg)(s)) {
      RankPositive(s, cfg);
      if !BothMain(s) { NeverStuck(s, cfg); }
    }
    forall s, t | Invariant(cfg)(s) && Shaking(cfg)(s, t) ensures Ranked(cfg)(t) < Ranked(cfg)(s) {
      MoveKeeps(s, t, cfg);
    }
  }

  lemma RunInvariantly(f: nat -> State, cfg: Setup)
    requires f(0) == Initial() && FollowsForever(f, Moving(cfg))
    ensures Invariantly(f, Invariant(cfg), Moving(cfg))
  {
    InitialInv(f(0), cfg);
    MovesKeep(cfg);
  }

  /** Every endless run that is fair to the handshake brings both sides to the main phase, however
      heartbeats and other traffic of the side that got there first interleave. */
  lemma FairRunsConnect(f: nat -> State, cfg: Setup)
    requires f(0) == Initial() && FollowsForever(f, Moving(cfg))
    requires Fair(f, Enabled(cfg), Shaking(cfg))
    ensures Eventually(f, 0, Done())
  {
    RunInvariantly(f, cfg);
    HandshakeDescends(cfg);
    Arrives(f, 0, Invariant(cfg), Moving(cfg), Ranked(cfg), Enabled(cfg), Shaking(cfg), Done());
  }

  // ----- A heartbeat comes back -----

  /** How far the heartbeat of one side has come: about to be sent, travelling, being answered, travelling back. */
  function Phase(s: State, who: Who): nat {
    if SideOf(s, who).armed then 3
    else if Beats(Inbox(s, Peer(who))) > 0 then 2
    else if SideOf(s, Peer(who)).replying then 1 else 0
  }

  /** What is in its way: packets before and behind it, and an answer that its receiver owes. */
  function Ahead(s: State, who: Who): nat {
    match Phase(s, who)
    case 2 => |Inbox(s, Peer(who))|
    case 0 => 2 * |Inbox(s, who)| + One(SideOf(s, who).replying)
    case _ => 0
  }

  ghost predicate Waiting(s: State, who: Who, cfg: Setup) {
    && Inv(s, cfg) && NumbersOk(s) && BothMain(s) && !s.lc.closed && !s.sdx.closed && SideOf(s, who).outstanding
  }

  predicate Nearer(s: State, t: State, who: Who) {
    Phase(t, who) < Phase(s, who) || (Phase(t, who) == Phase(s, who) && Ahead(t, who) < Ahead(s, who))
  }

  predicate Unclosed(s: State) {
    !s.lc.closed && !s.sdx.closed
  }

  lemma StaysMain(s: State, who: Who, act: Action, cfg: Setup)
    requires Waiting(s, who, cfg) && !act.Handshake? && Step(s, act, cfg).Some?
    ensures var t := Step(s, act, cfg).value; Inv(t, cfg) && NumbersOk(t) && BothMain(t)
  {
    StepKeeps(s, act, cfg);
    RankPositive(s, cfg);
    RankPositive(Step(s, act, cfg).value, cfg);
  }

  /** The request is about to be sent. */
  lemma BeatNearer(s: State, who: Who, cfg: Setup)
    requires Waiting(s, who, cfg) && Phase(s, who) == 3
    ensures Step(s, Beat(who), cfg).Some?
    ensures var t := Step(s, Beat(who), cfg).value; Unclosed(t) && Nearer(s, t, who)
  {
  }

  /** It travels: the peer, which owes no answer then, takes what comes before it. */
  lemma TravelNearer(s: State, who: Who, cfg: Setup)
    requires Waiting(s, who, cfg) && Phase(s, who) == 2
    ensures Step(s, Receive(Peer(who)), cfg).Some?
    ensures var t := Step(s, Receive(Peer(who)), cfg).value; Unclosed(t) && Nearer(s, t, who)
  {
    assert Tracked(SideOf(s, who), SideOf(s, Peer(who)), Inbox(s, Peer(who)), Inbox(s, who));
  }

  lemma ReplyNearer(s: State, who: Who, cfg: Setup)
    requires Waiting(s, who, cfg) && Phase(s, who) == 1
    ensures Step(s, Reply(Peer(who)), cfg).Some?
    ensures var t := Step(s, Reply(Peer(who)), cfg).value; Unclosed(t) && Nearer(s, t, who)
  {
    var t := Step(s, Reply(Peer(who)), cfg).value;
    assert Tracked(SideOf(s, who), SideOf(s, Peer(who)), Inbox(s, Peer(who)), Inbox(s, who));
  }

  /** The answer travels: the side pays what it owes itself, then takes what comes before. */
  lemma PayNearer(s: State, who: Who, cfg: Setup)
    requires Waiting(s, who, cfg) && Phase(s, who) == 0 && SideOf(s, who).replying
    ensures Step(s, Reply(who), cfg).Some?
    ensures var t := Step(s, Reply(who), cfg).value; Unclosed(t) && Nearer(s, t, who)
  {
    assert Tracked(SideOf(s, who), SideOf(s, Peer(who)), Inbox(s, Peer(who)), Inbox(s, who));
    CountAppend(Inbox(s, Peer(who)), Stamp(SideOf(s, who), HeartbeatResponse));
  }

  lemma TakeNearer(s: State, who: Who, cfg: Setup)
    requires Waiting(s, who, cfg) && Phase(s, who) == 0 && !SideOf(s, who).replying
    ensures Step(s, Receive(who), cfg).Some?
    ensures var t := Step(s, Receive(who), cfg).value;
            Unclosed(t) && (SideOf(t, who).outstanding ==> Nearer(s, t, who))
  {
    assert Tracked(SideOf(s, who), SideOf(s, Peer(who)), Inbox(s, Peer(who)), Inbox(s, who));
  }

  /** So there is always a move that brings it nearer. */
  lemma NextTowards(s: State, who: Who, cfg: Setup) returns (t: State)
    requires Waiting(s, who, cfg)
    ensures Moves(s, t, cfg) && Inv(t, cfg) && Unclosed(t)
    ensures SideOf(t, who).outstanding ==> Waiting(t, who, cfg) && Nearer(s, t, who)
  {
    var act;
    match Phase(s, who) {
      case 3 => act := Beat(who); BeatNearer(s, who, cfg);
      case 2 => act := Receive(Peer(who)); TravelNearer(s, who, cfg);
      case 1 => act := Reply(Peer(who)); ReplyNearer(s, who, cfg);
      case _ =>
        act := if SideOf(s, who).replying then Reply(who) else Receive(who);
        if SideOf(s, who).replying { PayNearer(s, who, cfg); } else { TakeNearer(s, who, cfg); }
    }
    StaysMain(s, who, act, cfg);
    t := Step(s, act, cfg).value;
    assert Step(s, act, cfg) == Some(t);
  }

  /** As long as nobody closes, a heartbeat can always come back: from every reachable state in the main phase some
      further moves, none of them of a timer but to send it, take the flag down. */
  lemma HeartbeatReturns(s: State, who: Who, cfg: Setup) returns (run: seq<State>)
    requires Waiting(s, who, cfg)
    ensures |run| > 0 && run[0] == s && Runs.Follows(run, Moving(cfg))
    ensures var t := run[|run| - 1]; Inv(t, cfg) && Unclosed(t) && !SideOf(t, who).outstanding
    decreases Phase(s, who), Ahead(s, who)
  {
    var t := NextTowards(s, who, cfg);
    if SideOf(t, who).outstanding {
      var rest := HeartbeatReturns(t, who, cfg);
      FollowsFrom(s, rest, Moving(cfg));
      run := [s] + rest;
    } else {
      run := [s, t];
    }
  }
}
