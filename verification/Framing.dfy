/** Messages over a byte stream: each payload is sent behind its length in four bytes, and received however
    the network cuts the stream into pieces. */
module Framing {
  import opened Basics

  newtype byte = x: int | 0 <= x < 256

  const HEADER := 4
  const MAX_SIZE := 0x7fff_ffff
  const LARGE := 524388
  const AT_ONCE := 524288

  // ----- The length field: a signed big-endian 32-bit integer -----

  function Pack(n: int): (s: seq<byte>)
    requires 0 <= n <= MAX_SIZE
    ensures |s| == HEADER
  {
    var p, q, r := n / 256, n / 256 / 256, n / 256 / 256 / 256;
    [r as byte, (q % 256) as byte, (p % 256) as byte, (n % 256) as byte]
  }

  function Unpack(s: seq<byte>): int
    requires |s| == HEADER
  {
    var n := s[0] as int * 0x100_0000 + s[1] as int * 0x1_0000 + s[2] as int * 0x100 + s[3] as int;
    if n > MAX_SIZE then n - 0x1_0000_0000 else n
  }

  lemma UnpackPack(n: int)
    requires 0 <= n <= MAX_SIZE
    ensures Unpack(Pack(n)) == n
  {
  }

  /** The most significant byte comes first, and the highest bit is the sign. */
  lemma BigEndian(s: seq<byte>, t: seq<byte>, k: nat)
    requires |s| == |t| == HEADER && k < HEADER && forall i :: 0 <= i < HEADER && i != k ==> s[i] == t[i]
    requires k == 0 ==> (s[0] < 128 <==> t[0] < 128)
    ensures Unpack(s) - Unpack(t) == (s[k] as int - t[k] as int) * [0x100_0000, 0x1_0000, 0x100, 1][k]
  {
  }

  lemma SignBit(s: seq<byte>)
    requires |s| == HEADER
    ensures Unpack(s) < 0 <==> s[0] >= 128
    ensures Unpack([0, 0, 0, 0]) == 0 && Unpack([255, 255, 255, 255]) == -1
  {
  }

  // ----- What a stream says -----

  function Frame(payload: seq<byte>): seq<byte>
    requires |payload| <= MAX_SIZE
  {
    Pack(|payload|) + payload
  }

  predicate Sendable(payloads: seq<seq<byte>>) {
    forall i :: 0 <= i < |payloads| ==> |payloads[i]| <= MAX_SIZE
  }

  function Stream(payloads: seq<seq<byte>>): seq<byte>
    requires Sendable(payloads)
  {
    if payloads == [] then [] else Frame(payloads[0]) + Stream(payloads[1..])
  }

  function BodySize(stream: seq<byte>): nat
    requires |stream| >= HEADER
  {
    var size := Unpack(stream[..HEADER]);
    if size < 0 then 0 else size
  }

  /** A whole frame will arrive. */
  predicate HasFrame(stream: seq<byte>) {
    |stream| >= HEADER && |stream| >= HEADER + BodySize(stream)
  }

  function Body(stream: seq<byte>): seq<byte>
    requires HasFrame(stream)
  {
    stream[HEADER..HEADER + BodySize(stream)]
  }

  function After(stream: seq<byte>): (rest: seq<byte>)
    requires HasFrame(stream)
    ensures |rest| < |stream|
  {
    stream[HEADER + BodySize(stream)..]
  }

  /** The payloads that a receiver can read: up to the first one that does not load, or that is not all there. */
  function Readable(stream: seq<byte>, loads: seq<byte> -> bool): seq<seq<byte>>
    decreases |stream|
  {
    if !HasFrame(stream) || !loads(Body(stream)) then [] else [Body(stream)] + Readable(After(stream), loads)
  }

  /** Whether it is a payload that does not load at which the reading ends. */
  predicate EndsUnloaded(stream: seq<byte>, loads: seq<byte> -> bool)
    decreases |stream|
  {
    HasFrame(stream) && (loads(Body(stream)) ==> EndsUnloaded(After(stream), loads))
  }

  // ----- Sockets -----

  /** How a stream ends: closed by the other side, after which every read returns no bytes, or by an error. */
  datatype Ending = Closed | Reset

  /** One end of a stream. `incoming` is everything that will still arrive, in order. */
  class Socket {
    const ending: Ending
    var incoming: seq<byte>
    var outgoing: seq<byte>

    constructor (incoming: seq<byte>, ending: Ending)
      ensures this.incoming == incoming && this.ending == ending && outgoing == []
    {
      this.incoming, this.ending, outgoing := incoming, ending, [];
    }

    /** Waits for data and returns what happens to have arrived, at least one byte and at most n. When nothing will
        arrive any more it returns nothing, or raises. The program never asks for more than that much at once. */
    method Recv(n: nat) returns (ok: bool, data: seq<byte>)
      requires 0 < n <= 524388
      modifies this`incoming
      ensures old(incoming) == data + incoming && |data| <= n
      ensures data == [] <==> old(incoming) == []
      ensures ok <==> old(incoming) != [] || ending == Closed
    {
      if incoming == [] {
        return ending == Closed, [];
      }
      var k: nat :| 0 < k <= n && k <= |incoming|;
      ok, data, incoming := true, incoming[..k], incoming[k..];
    }

    method SendAll(data: seq<byte>)
      modifies this`outgoing
      ensures outgoing == old(outgoing) + data
    {
      outgoing := outgoing + data;
    }
  }

  function Join(pieces: seq<seq<byte>>): seq<byte> {
    if pieces == [] then [] else Join(pieces[..|pieces| - 1]) + pieces[|pieces| - 1]
  }

  lemma JoinMore(all: seq<byte>, pieces: seq<seq<byte>>, before: seq<byte>, data: seq<byte>, after: seq<byte>)
    requires all == Join(pieces) + before && before == data + after
    ensures all == Join(pieces + [data]) + after && |Join(pieces + [data])| == |Join(pieces)| + |data|
  {
    assert (pieces + [data])[..|pieces|] == pieces;
    Regroup(Join(pieces), data, after);
  }

  /** A call that reads from the socket returns, raises, or keeps reading nothing from a closed stream for ever. */
  datatype Outcome<T> = Received(value: T) | Raised | Spinning

  function Dead<T>(ending: Ending): Outcome<T> {
    match ending
    case Closed => Spinning
    case Reset => Raised
  }

  class Connection {
    const sock: Socket
    /** Whether the unpickler accepts a payload. */
    const loads: seq<byte> -> bool
    var open: bool

    constructor (sock: Socket, loads: seq<byte> -> bool)
      ensures this.sock == sock && this.loads == loads && open
    {
      this.sock, this.loads, open := sock, loads, true;
    }

    method Close()
      modifies this`open
      ensures !open
    {
      open := false;
    }

    /** Fails, before anything is sent, exactly if the connection is closed or the length does not fit. */
    method Send(payload: seq<byte>) returns (ok: bool)
      modifies sock`outgoing
      ensures ok <==> open && |payload| <= MAX_SIZE
      ensures sock.outgoing == old(sock.outgoing) + if ok then Frame(payload) else []
    {
      if !open || |payload| > MAX_SIZE {
        return false;
      }
      sock.SendAll(Pack(|payload|) + payload);
      ok := true;
    }

    /** The first read that yields nothing leaves the loop as it was, so that the loop never ends. */
    method RecvSize() returns (r: Outcome<int>)
      modifies sock`incoming
      ensures |old(sock.incoming)| >= HEADER ==>
        r == Received(Unpack(old(sock.incoming)[..HEADER])) && sock.incoming == old(sock.incoming)[HEADER..]
      ensures |old(sock.incoming)| < HEADER ==> r == Dead(sock.ending) && sock.incoming == []
    {
      ghost var stream := sock.incoming;
      var sizeData: seq<byte> := [];
      while |sizeData| < HEADER
        invariant |sizeData| <= HEADER && stream == sizeData + sock.incoming
      {
        var ok, sockData := sock.Recv(HEADER - |sizeData|);
        if !ok {
          return Raised;
        }
        if sockData == [] {
          return Spinning;
        }
        sizeData := sizeData + sockData;
      }
      assert stream[..HEADER] == sizeData;
      r := Received(Unpack(sizeData));
    }

    /** Receives one payload, whatever pieces it comes in, and not a byte of the next one. */
    method Recv() returns (r: Outcome<seq<byte>>)
      modifies sock`incoming
      ensures !open ==> r == Raised && sock.incoming == old(sock.incoming)
      ensures open && HasFrame(old(sock.incoming)) ==>
        && r == (if loads(Body(old(sock.incoming))) then Received(Body(old(sock.incoming))) else Raised)
        && sock.incoming == After(old(sock.incoming))
      ensures open && !HasFrame(old(sock.incoming)) ==> r == Dead(sock.ending) && sock.incoming == []
    {
      if !open {
        return Raised;
      }
      ghost var stream := sock.incoming;
      var header := RecvSize();
      if !header.Received? {
        return if header.Raised? then Raised else Spinning;
      }
      var size := header.value;
      var totalLen := 0;
      var totalData: seq<seq<byte>> := [];
      var recvSize := if size > LARGE then AT_ONCE else size;
      while totalLen < size
        invariant totalLen == |Join(totalData)| <= BodySize(stream) && recvSize <= size - totalLen
        invariant (totalLen < size ==> recvSize > 0) && recvSize <= 524388
        invariant stream[HEADER..] == Join(totalData) + sock.incoming
        decreases size - totalLen
      {
        ghost var before := sock.incoming;
        var ok, sockData := sock.Recv(recvSize);
        if sockData == [] {
          assert |stream| == HEADER + totalLen && !HasFrame(stream);
          return if ok then Spinning else Raised;
        }
        JoinMore(stream[HEADER..], totalData, before, sockData, sock.incoming);
        totalData := totalData + [sockData];
        totalLen := |Join(totalData)|;
        recvSize := size - totalLen;
        if recvSize > LARGE {
          recvSize := AT_ONCE;
        }
      }
      var dataRaw := Join(totalData);
      assert dataRaw == Body(stream);
      if !loads(dataRaw) {
        return Raised;
      }
      r := Received(dataRaw);
    }

    /** The receiving thread: each payload goes to the callback, here collected in a list, until one cannot be
        received; then the connection is closed, unless the thread hangs at the end of a closed stream. */
    method ReceiveThread() returns (received: seq<seq<byte>>, done: bool)
      modifies this`open, sock`incoming
      ensures received == if old(open) then Readable(old(sock.incoming), loads) else []
      ensures done <==> !old(open) || EndsUnloaded(old(sock.incoming), loads) || sock.ending == Reset
      ensures open <==> !done
    {
      received := [];
      if !open {
        return received, true;
      }
      while true
        invariant open
        invariant Readable(old(sock.incoming), loads) == received + Readable(sock.incoming, loads)
        invariant EndsUnloaded(old(sock.incoming), loads) <==> EndsUnloaded(sock.incoming, loads)
        decreases |sock.incoming|
      {
        var r := Recv();
        if r.Received? {
          received := received + [r.value];
        } else if r.Raised? {
          Close();
          return received, true;
        } else {
          return received, false;
        }
      }
    }
  }

  // ----- Round trip -----

  lemma FrameFirst(payload: seq<byte>, rest: seq<byte>)
    requires |payload| <= MAX_SIZE
    ensures HasFrame(Frame(payload) + rest) && Body(Frame(payload) + rest) == payload
            && After(Frame(payload) + rest) == rest
  {
    UnpackPack(|payload|);
    var s := Frame(payload) + rest;
    assert s[..HEADER] == Pack(|payload|);
  }

  lemma ReadFirst(payload: seq<byte>, rest: seq<byte>, loads: seq<byte> -> bool)
    requires |payload| <= MAX_SIZE && loads(payload)
    ensures Readable(Frame(payload) + rest, loads) == [payload] + Readable(rest, loads)
    ensures EndsUnloaded(Frame(payload) + rest, loads) <==> EndsUnloaded(rest, loads)
  {
    FrameFirst(payload, rest);
  }

  predicate AllLoad(payloads: seq<seq<byte>>, loads: seq<byte> -> bool) {
    forall i :: 0 <= i < |payloads| ==> loads(payloads[i])
  }

  lemma ReadNext(payloads: seq<seq<byte>>, rest: seq<byte>, loads: seq<byte> -> bool)
    requires Sendable(payloads) && AllLoad(payloads, loads) && payloads != []
    ensures Sendable(payloads[1..]) && AllLoad(payloads[1..], loads)
    ensures var next := Stream(payloads[1..]) + rest;
            && Readable(Stream(payloads) + rest, loads) == [payloads[0]] + Readable(next, loads)
            && (EndsUnloaded(Stream(payloads) + rest, loads) <==> EndsUnloaded(next, loads))
  {
    var first, tail := Frame(payloads[0]), Stream(payloads[1..]);
    assert Stream(payloads) + rest == first + (tail + rest);
    ReadFirst(payloads[0], tail + rest, loads);
  }

  /** Whatever was sent is read, in order, and then whatever follows it. */
  lemma {:induction false} RoundTrip(payloads: seq<seq<byte>>, rest: seq<byte>, loads: seq<byte> -> bool)
    requires Sendable(payloads) && AllLoad(payloads, loads)
    ensures Readable(Stream(payloads) + rest, loads) == payloads + Readable(rest, loads)
    ensures EndsUnloaded(Stream(payloads) + rest, loads) <==> EndsUnloaded(rest, loads)
    decreases |payloads|
  {
    if payloads == [] {
      assert [] + rest == rest;
    } else {
      var tail := payloads[1..];
      ReadNext(payloads, rest, loads);
      RoundTrip(tail, rest, loads);
      HeadOfConcat(payloads, Readable(rest, loads));
    }
  }

  lemma WholeStream(payloads: seq<seq<byte>>, loads: seq<byte> -> bool)
    requires Sendable(payloads) && AllLoad(payloads, loads)
    ensures Readable(Stream(payloads), loads) == payloads && !EndsUnloaded(Stream(payloads), loads)
  {
    RoundTrip(payloads, [], loads);
    assert Stream(payloads) + [] == Stream(payloads);
  }

  /** A stream can be cut into frames in one way only, even when one stream is the start of the other. */
  lemma OneReading(a: seq<seq<byte>>, b: seq<seq<byte>>, stream: seq<byte>, more: seq<byte>)
    requires Sendable(a) && Sendable(b) && stream == Stream(a) + more && stream == Stream(b) && |a| <= |b|
    ensures a <= b
  {
    RoundTrip(a, more, _ => true);
    WholeStream(b, _ => true);
  }

  /** End to end: one side sends, the bytes arrive in order in whatever pieces, the other side gets exactly
      the payloads. */
  method Exchange(sender: Connection, receiver: Connection, payloads: seq<seq<byte>>)
    returns (received: seq<seq<byte>>, done: bool)
    requires Sendable(payloads) && AllLoad(payloads, receiver.loads) && sender.open && receiver.open
    requires sender.sock != receiver.sock && sender.sock.outgoing == [] && receiver.sock.incoming == []
    modifies sender.sock, receiver.sock, receiver`open
    ensures received == payloads && (done <==> receiver.sock.ending == Reset)
  {
    for i := 0 to |payloads|
      invariant sender.open && receiver.open && sender.sock.outgoing == Stream(payloads[..i])
    {
      var ok := sender.Send(payloads[i]);
      StreamMore(payloads[..i], payloads[i]);
      assert payloads[..i + 1] == payloads[..i] + [payloads[i]];
    }
    assert payloads[..|payloads|] == payloads;
    receiver.sock.incoming := sender.sock.outgoing;
    WholeStream(payloads, receiver.loads);
    received, done := receiver.ReceiveThread();
  }

  lemma {:induction false} StreamMore(payloads: seq<seq<byte>>, last: seq<byte>)
    requires Sendable(payloads) && |last| <= MAX_SIZE
    ensures Sendable(payloads + [last]) && Stream(payloads + [last]) == Stream(payloads) + Frame(last)
    decreases |payloads|
  {
    var all := payloads + [last];
    if payloads == [] {
      assert all[1..] == [] && Frame(last) + [] == Frame(last);
    } else {
      assert all[1..] == payloads[1..] + [last];
      StreamMore(payloads[1..], last);
      Regroup(Frame(payloads[0]), Stream(payloads[1..]), Frame(last));
    }
  }
}
