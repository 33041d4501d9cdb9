/**
  The length-prefixed frames of the happd protocol: 4 bytes of big-endian
  length, then the payload. The sender and the receive loops of the provider and
  of the sniffer, against a socket that delivers in arbitrary pieces.
 */
module Framing {
  import opened Common

  const MAX_LENGTH := 0x1_0000_0000

  function BigEndian(n: nat): seq<Byte>
    requires n < MAX_LENGTH
  {
    var n1 := n / 0x100;
    var n2 := n1 / 0x100;
    [n2 / 0x100, n2 % 0x100, n1 % 0x100, n % 0x100]
  }

  function FromBigEndian(h: seq<Byte>): nat
    requires |h| == 4
  {
    ((h[0] as int * 0x100 + h[1] as int) * 0x100 + h[2] as int) * 0x100 + h[3] as int
  }

  /** Network order: the first byte weighs most. */
  lemma NetworkOrder(a: Byte, b: Byte, c: Byte, d: Byte)
    ensures FromBigEndian([a, b, c, d]) == 0x100_0000 * a + 0x1_0000 * b + 0x100 * c + d
  {}

  lemma BigEndianRoundTrip(n: nat)
    requires n < MAX_LENGTH
    ensures FromBigEndian(BigEndian(n)) == n
  {}

  /** _send_frame: struct.pack refuses a payload whose length does not fit into 4 bytes. */
  function Encode(payload: seq<Byte>): Option<seq<Byte>> {
    if |payload| < MAX_LENGTH then Some(BigEndian(|payload|) + payload) else None
  }

  ghost predicate Sendable(payloads: seq<seq<Byte>>) {
    forall p <- payloads :: |p| < MAX_LENGTH
  }

  ghost function Frame(payload: seq<Byte>): seq<Byte>
    requires |payload| < MAX_LENGTH
  {
    Encode(payload).value
  }

  ghost function EncodeAll(payloads: seq<seq<Byte>>): seq<Byte>
    requires Sendable(payloads)
  {
    if |payloads| == 0 then [] else Frame(payloads[0]) + EncodeAll(payloads[1..])
  }

  /** The payload a byte sequence starts with, when it holds a whole frame. */
  ghost function FirstPayload(wire: seq<Byte>): Option<seq<Byte>> {
    if |wire| < 4 then None
    else
      var length := FromBigEndian(wire[..4]);
      if |wire| < 4 + length then None else Some(wire[4..4 + length])
  }

  lemma FirstOfEncoded(payload: seq<Byte>, rest: seq<Byte>)
    requires |payload| < MAX_LENGTH
    ensures FirstPayload(Frame(payload) + rest) == Some(payload)
    ensures (Frame(payload) + rest)[4 + |payload|..] == rest
  {
    var wire := Frame(payload) + rest;
    assert wire[..4] == BigEndian(|payload|);
    BigEndianRoundTrip(|payload|);
    assert wire[4..4 + |payload|] == payload;
  }

  /** What one call of recv meets: some bytes, or a timeout. */
  datatype Arrival = Bytes(most: nat) | Silent

  /** A connected socket. `wire` is everything the peer will ever send before it closes. */
  class Socket {
    const wire: seq<Byte>
    const arrivals: nat -> Arrival
    var pos: nat
    var calls: nat

    constructor (wire: seq<Byte>, arrivals: nat -> Arrival)
      ensures this.wire == wire && this.arrivals == arrivals && pos == 0 && Valid()
    {
      this.wire, this.arrivals := wire, arrivals;
      pos, calls := 0, 0;
    }

    ghost predicate Valid()
      reads this
    {
      pos <= |wire|
    }

    /** What has not been read yet. */
    ghost function Rest(): seq<Byte>
      reads this
      requires Valid()
    {
      wire[pos..]
    }

    /** recv(n): None is a timeout, the empty sequence the end of the stream. */
    method Recv(n: nat) returns (chunk: Option<seq<Byte>>)
      requires Valid() && n > 0
      modifies this
      ensures Valid()
      ensures calls == old(calls) + 1 && (chunk.None? <==> arrivals(old(calls)).Silent?)
      ensures chunk.None? ==> pos == old(pos)
      ensures chunk.Some? ==>
        && pos == old(pos) + |chunk.value| && chunk.value == wire[old(pos)..pos] && |chunk.value| <= n
        && (chunk.value == [] <==> old(pos) == |wire|)
    {
      var arrival := arrivals(calls);
      calls := calls + 1;
      if arrival.Silent? { return None; }
      var size := Min(Min(n, Max(arrival.most, 1)), |wire| - pos);
      chunk := Some(wire[pos..pos + size]);
      pos := pos + size;
    }
  }

  datatype Received = Payload(body: seq<Byte>) | Closed | TimedOut

  /** The inner loop: read until `n` bytes are there. */
  method ReadExactly(s: Socket, n: nat) returns (r: Received)
    requires s.Valid()
    modifies s
    ensures s.Valid() && old(s.pos) <= s.pos
    ensures r.Payload? ==> s.pos == old(s.pos) + n && r.body == s.wire[old(s.pos)..s.pos]
    ensures !r.Payload? ==> s.pos < old(s.pos) + n
    ensures r.Closed? ==> s.pos == |s.wire|
    ensures old(s.calls) <= s.calls && (r.TimedOut? ==> old(s.calls) < s.calls && s.arrivals(s.calls - 1).Silent?)
  {
    var buffer := [];
    while |buffer| < n
      invariant s.Valid() && |buffer| <= n && old(s.calls) <= s.calls
      invariant s.pos == old(s.pos) + |buffer| && buffer == s.wire[old(s.pos)..s.pos]
      decreases n - |buffer|
    {
      var chunk := s.Recv(n - |buffer|);
      if chunk.None? { return TimedOut; }
      if chunk.value == [] { return Closed; }
      buffer := buffer + chunk.value;
    }
    return Payload(buffer);
  }

  /**
    _recv_frame. A whole frame is taken off the stream and nothing else; a
    timeout or the end of the stream comes before the frame is complete, and
    whatever had been read of it is gone.
   */
  method RecvFrame(s: Socket) returns (r: Received)
    requires s.Valid()
    modifies s
    ensures s.Valid() && old(s.pos) <= s.pos
    ensures r.Payload? ==> FirstPayload(old(s.Rest())) == Some(r.body) && s.pos == old(s.pos) + 4 + |r.body|
    ensures r.Closed? ==> s.pos == |s.wire| && FirstPayload(old(s.Rest())).None?
    ensures old(s.calls) <= s.calls && (r.TimedOut? ==> old(s.calls) < s.calls && s.arrivals(s.calls - 1).Silent?)
    ensures r.TimedOut? && FirstPayload(old(s.Rest())).Some? ==>
      s.pos < old(s.pos) + 4 + |FirstPayload(old(s.Rest())).value|
  {
    ghost var rest := s.Rest();
    var header := ReadExactly(s, 4);
    if !header.Payload? { return header; }
    assert header.body == rest[..4];
    var length := FromBigEndian(header.body);
    r := ReadExactly(s, length);
    if r.Payload? {
      assert r.body == rest[4..4 + length];
    }
  }

  // ── A stream of frames ─────────────────────────────────────────────────────

  /** Where frame j of a stream starts. */
  ghost function Start(payloads: seq<seq<Byte>>, j: nat): nat
    requires j <= |payloads| && Sendable(payloads)
  {
    if j == 0 then 0 else 4 + |payloads[0]| + Start(payloads[1..], j - 1)
  }

  /** The socket stands at the start of frame j of what the peer sends. */
  ghost predicate AtFrame(s: Socket, payloads: seq<seq<Byte>>, j: nat)
    reads s
  {
    && s.Valid() && j <= |payloads| && Sendable(payloads)
    && s.wire == EncodeAll(payloads) && s.pos == Start(payloads, j)
  }

  lemma DropPast(a: seq<Byte>, b: seq<Byte>, k: nat)
    requires k <= |b|
    ensures (a + b)[|a| + k..] == b[k..]
  {}

  lemma {:induction false} FromStart(payloads: seq<seq<Byte>>, j: nat)
    requires j <= |payloads| && Sendable(payloads)
    ensures Start(payloads, j) <= |EncodeAll(payloads)|
    ensures EncodeAll(payloads)[Start(payloads, j)..] == EncodeAll(payloads[j..])
  {
    if j > 0 {
      var front, rest := Frame(payloads[0]), EncodeAll(payloads[1..]);
      FromStart(payloads[1..], j - 1);
      assert payloads[1..][j - 1..] == payloads[j..];
      DropPast(front, rest, Start(payloads[1..], j - 1));
      assert |front| == 4 + |payloads[0]| && EncodeAll(payloads) == front + rest;
    } else {
      assert payloads[0..] == payloads;
    }
  }

  lemma {:induction false} StartsApart(payloads: seq<seq<Byte>>, i: nat, j: nat)
    requires i < j <= |payloads| && Sendable(payloads)
    ensures Start(payloads, i) + 4 + |payloads[i]| <= Start(payloads, j)
  {
    if i > 0 {
      StartsApart(payloads[1..], i - 1, j - 1);
    }
  }

  lemma NextStart(payloads: seq<seq<Byte>>, j: nat)
    requires j < |payloads| && Sendable(payloads)
    ensures Start(payloads, j) <= |EncodeAll(payloads)|
    ensures FirstPayload(EncodeAll(payloads)[Start(payloads, j)..]) == Some(payloads[j])
    ensures Start(payloads, j + 1) == Start(payloads, j) + 4 + |payloads[j]|
  {
    FromStart(payloads, j);
    FirstOfEncoded(payloads[j], EncodeAll(payloads[j..][1..]));
    StartSucc(payloads, j);
  }

  lemma {:induction false} StartSucc(payloads: seq<seq<Byte>>, j: nat)
    requires j < |payloads| && Sendable(payloads)
    ensures Start(payloads, j + 1) == Start(payloads, j) + 4 + |payloads[j]|
  {
    if j > 0 {
      StartSucc(payloads[1..], j - 1);
    }
  }

  /** A position strictly inside frame j is the start of no frame. */
  lemma InsideIsNoStart(payloads: seq<seq<Byte>>, j: nat, position: nat, b: nat)
    requires j < |payloads| && b <= |payloads| && Sendable(payloads)
    requires Start(payloads, j) < position < Start(payloads, j + 1)
    ensures position != Start(payloads, b)
  {
    if b < j {
      StartsApart(payloads, b, j);
    } else if j + 1 < b {
      StartsApart(payloads, j + 1, b);
    }
  }

  /** No frame starts at the position. */
  ghost predicate OffBoundary(payloads: seq<seq<Byte>>, position: nat)
    requires Sendable(payloads)
  {
    forall b | 0 <= b <= |payloads| :: position != Start(payloads, b)
  }

  /**
    One call. Begun at a frame boundary it returns that very frame, sees the end
    only after the last one, and a timeout leaves the socket at a boundary
    exactly when the call had read nothing.
   */
  method RecvNext(s: Socket, ghost payloads: seq<seq<Byte>>, ghost j: nat) returns (r: Received)
    requires s.Valid()
    modifies s
    ensures s.Valid() && old(s.calls) <= s.calls
    ensures r.TimedOut? ==> old(s.calls) < s.calls && s.arrivals(s.calls - 1).Silent?
    ensures old(AtFrame(s, payloads, j)) && r.Payload? ==>
      j < |payloads| && r.body == payloads[j] && AtFrame(s, payloads, j + 1)
    ensures old(AtFrame(s, payloads, j)) && r.Closed? ==> j == |payloads| && AtFrame(s, payloads, j)
    ensures old(AtFrame(s, payloads, j)) && r.TimedOut? ==>
      if s.pos == old(s.pos) then AtFrame(s, payloads, j) else OffBoundary(payloads, s.pos)
  {
    ghost var aligned := AtFrame(s, payloads, j);
    if aligned {
      FromStart(payloads, j);
      if j < |payloads| {
        NextStart(payloads, j);
      } else {
        assert payloads[j..] == [];
      }
    }
    r := RecvFrame(s);
    if aligned && r.TimedOut? && s.pos != old(s.pos) {
      forall b | 0 <= b <= |payloads| ensures s.pos != Start(payloads, b) {
        InsideIsNoStart(payloads, j, s.pos, b);
      }
    }
  }

  /**
    Up to n calls, each timeout followed by another call as the hold loop does
    it; `idle` counts the timeouts. `intact` bodies came before the first
    timeout inside a frame, if there was one, at position `lost`: they are the
    first payloads, and `lost` is no frame boundary. Timeouts at a boundary do
    no harm: without such a loss exactly the rest of the stream is left.
   */
  method RecvMany(s: Socket, n: nat, ghost payloads: seq<seq<Byte>>)
    returns (bodies: seq<seq<Byte>>, idle: nat, closed: bool, ghost intact: nat, ghost lost: Option<nat>)
    requires AtFrame(s, payloads, 0)
    modifies s
    ensures s.Valid() && intact <= |bodies| && bodies[..intact] <= payloads
    ensures lost.None? ==> intact == |bodies| && AtFrame(s, payloads, intact) && s.Rest() == EncodeAll(payloads[intact..])
    ensures lost.Some? ==> OffBoundary(payloads, lost.value) && idle > 0
    ensures if closed then |bodies| + idle < n else |bodies| + idle == n
    ensures closed && lost.None? ==> bodies == payloads
    ensures (forall c | old(s.calls) <= c < s.calls :: s.arrivals(c).Bytes?) ==> idle == 0
  {
    bodies, idle, closed, intact, lost := [], 0, false, 0, None;
    while |bodies| + idle < n && !closed
      invariant s.Valid() && old(s.calls) <= s.calls
      invariant if closed then |bodies| + idle < n else |bodies| + idle <= n
      invariant intact <= |bodies| && bodies[..intact] <= payloads
      invariant lost.None? ==> intact == |bodies| && AtFrame(s, payloads, intact)
      invariant lost.Some? ==> OffBoundary(payloads, lost.value) && idle > 0
      invariant closed && lost.None? ==> bodies == payloads
      invariant idle > 0 ==> exists c :: old(s.calls) <= c < s.calls && s.arrivals(c).Silent?
      decreases n - |bodies| - idle, if closed then 0 else 1
    {
      ghost var here := s.pos;
      var r := RecvNext(s, payloads, intact);
      match r
      case Closed =>
        closed := true;
      case TimedOut =>
        idle := idle + 1;
        if lost.None? && s.pos != here {
          lost := Some(s.pos);
        }
      case Payload(body) =>
        bodies := bodies + [body];
        if lost.None? {
          intact := intact + 1;
        }
    }
    if lost.None? {
      FromStart(payloads, intact);
    }
  }

  /** What a payload is to a request: an event of the daemon's own, an answer, or no JSON object. */
  datatype Reading = Event | Answer | Malformed

  /** The first payload that is no event stands at j. */
  ghost predicate FirstNoEvent(payloads: seq<seq<Byte>>, read: seq<Byte> -> Reading, j: nat) {
    j < |payloads| && !read(payloads[j]).Event? && forall i | 0 <= i < j :: read(payloads[i]).Event?
  }

  /**
    _daemon_request: the first payload that is no event, when it can be read.
    None: it is malformed, there is none before the peer closes, or a timeout.
   */
  method FirstAnswer(s: Socket, read: seq<Byte> -> Reading, ghost payloads: seq<seq<Byte>>)
    returns (answer: Option<seq<Byte>>)
    requires AtFrame(s, payloads, 0)
    modifies s
    ensures answer.Some? ==> exists j: nat ::
      FirstNoEvent(payloads, read, j) && answer.value == payloads[j] && read(payloads[j]).Answer?
    ensures answer.None? ==>
      || (exists j: nat :: FirstNoEvent(payloads, read, j) && read(payloads[j]).Malformed?)
      || (forall p <- payloads :: read(p).Event?)
      || (old(s.calls) < s.calls && s.arrivals(s.calls - 1).Silent?)
  {
    ghost var j := 0;
    while true
      invariant AtFrame(s, payloads, j) && old(s.calls) <= s.calls
      invariant forall i | 0 <= i < j :: read(payloads[i]).Event?
      decreases |payloads| - j
    {
      var r := RecvNext(s, payloads, j);
      if !r.Payload? { return None; }
      if !read(r.body).Event? {
        assert FirstNoEvent(payloads, read, j);
        return if read(r.body).Answer? then Some(r.body) else None;
      }
      j := j + 1;
    }
  }

  // ── The sniffer ────────────────────────────────────────────────────────────

  /** The body of pipe's loop up to the forwarding: one header and one body as read, or how the source ended. */
  method ReadParts(src: Socket) returns (header: Received, body: Received)
    requires src.Valid()
    modifies src
    ensures src.Valid() && old(src.pos) <= src.pos
    ensures header.Payload? && body.Payload? ==>
      && |body.body| < MAX_LENGTH && header.body + body.body == Frame(body.body)
      && header.body + body.body == src.wire[old(src.pos)..src.pos]
    ensures header.Closed? || (header.Payload? && body.Closed?) ==> FirstPayload(old(src.Rest())).None?
  {
    ghost var rest := src.Rest();
    body := Closed;
    header := ReadExactly(src, 4);
    if !header.Payload? { return; }
    assert header.body == rest[..4];
    BigEndianUnique(header.body);
    body := ReadExactly(src, FromBigEndian(header.body));
  }

  /** How pipe ended: the source did, or a socket call failed. */
  datatype End = SourceEnded | SourceFailed | DestinationFailed

  /**
    sendall to a destination that fails once `room` bytes have gone through;
    None never fails. `sent` is what went through before.
   */
  method SendAll(sent: seq<Byte>, data: seq<Byte>, room: Option<nat>) returns (all: seq<Byte>, ok: bool)
    requires room.Some? ==> |sent| <= room.value
    ensures ok ==> all == sent + data
    ensures !ok ==> room.Some? && |all| == room.value < |sent| + |data| && all == sent + data[..|all| - |sent|]
    ensures room.Some? ==> |all| <= room.value
  {
    if room.Some? && |sent| + |data| > room.value {
      return sent + data[..room.value - |sent|], false;
    }
    return sent + data, true;
  }

  /** Behind what was sent the wire goes on with a frame of which cut is a proper front. */
  ghost predicate FrontOfNext(wire: seq<Byte>, sent: seq<Byte>, cut: seq<Byte>) {
    exists body: seq<Byte> :: |body| < MAX_LENGTH && cut < Frame(body) && sent + Frame(body) <= wire
  }

  /** How one turn of the loop ends pipe: what went through of the next frame, and how much had gone before. */
  ghost predicate Ends(wire: seq<Byte>, sent: seq<Byte>, cut: seq<Byte>, end: End, room: Option<nat>) {
    match end
    case SourceEnded => cut == [] && |sent| <= |wire| && FirstPayload(wire[|sent|..]).None?
    case SourceFailed => cut == []
    case DestinationFailed => room == Some(|sent| + |cut|) && FrontOfNext(wire, sent, cut)
  }

  lemma CutEnds(wire: seq<Byte>, sent: seq<Byte>, body: seq<Byte>, cut: seq<Byte>, room: Option<nat>)
    requires |body| < MAX_LENGTH && cut < Frame(body) && sent + Frame(body) <= wire
    requires room == Some(|sent| + |cut|)
    ensures Ends(wire, sent, cut, DestinationFailed, room) && sent + cut <= wire
  {}

  lemma NextSlice(wire: seq<Byte>, p: nat, q: nat)
    requires p <= q <= |wire|
    ensures wire[..p] + wire[p..q] == wire[..q]
  {}

  /** sendall of one frame, with what it makes of the stream forwarded so far. */
  method SendFrame(ghost wire: seq<Byte>, sent: seq<Byte>, frame: seq<Byte>, room: Option<nat>, ghost body: seq<Byte>)
    returns (all: seq<Byte>, ok: bool, ghost cut: seq<Byte>)
    requires |body| < MAX_LENGTH && frame == Frame(body) && sent + frame <= wire
    requires room.Some? ==> |sent| <= room.value
    ensures ok ==> all == sent + frame && (room.Some? ==> |all| <= room.value)
    ensures !ok ==> all == sent + cut && all <= wire && Ends(wire, sent, cut, DestinationFailed, room)
  {
    all, ok := SendAll(sent, frame, room);
    cut := [];
    if !ok {
      cut := frame[..|all| - |sent|];
      CutEnds(wire, sent, body, cut, room);
    }
  }

  /** One turn of pipe's loop: one frame more went through, or it was the last. */
  method ForwardOne(src: Socket, sent: seq<Byte>, room: Option<nat>)
    returns (all: seq<Byte>, end: Option<End>, ghost body: seq<Byte>, ghost cut: seq<Byte>)
    requires src.Valid() && sent == src.wire[..src.pos] && (room.Some? ==> |sent| <= room.value)
    modifies src
    ensures src.Valid() && all <= src.wire
    ensures end.None? ==> src.pos > old(src.pos) && all == src.wire[..src.pos] && (room.Some? ==> |all| <= room.value)
    ensures end.None? ==> |body| < MAX_LENGTH && all == sent + Frame(body)
    ensures end.Some? ==> all == sent + cut && Ends(src.wire, sent, cut, end.value, room)
  {
    body, cut := [], [];
    var header, rest := ReadParts(src);
    if !header.Payload? || !rest.Payload? {
      var failed := header.TimedOut? || (header.Payload? && rest.TimedOut?);
      return sent, Some(if failed then SourceFailed else SourceEnded), body, cut;
    }
    body := rest.body;
    var frame := header.body + rest.body;
    NextSlice(src.wire, |sent|, src.pos);
    var ok;
    all, ok, cut := SendFrame(src.wire, sent, frame, room, body);
    end := if ok then None else Some(DestinationFailed);
  }

  /**
    pipe: forwards frame by frame until the source ends or a call fails. What
    reaches the destination is an unchanged prefix of the source. It is made of
    whole frames, except that a destination that fails may have got the front
    of one more; on a clean end no whole frame is left behind.
   */
  method Pipe(src: Socket, room: Option<nat>)
    returns (forwarded: seq<Byte>, end: End, ghost payloads: seq<seq<Byte>>, ghost cut: seq<Byte>)
    requires src.Valid() && src.pos == 0
    modifies src
    ensures Sendable(payloads) && forwarded == EncodeAll(payloads) + cut && forwarded <= src.wire
    ensures Ends(src.wire, EncodeAll(payloads), cut, end, room)
  {
    forwarded, payloads := [], [];
    ghost var whole := [];
    while true
      invariant src.Valid() && forwarded == src.wire[..src.pos] && (room.Some? ==> |forwarded| <= room.value)
      invariant Sendable(payloads) && whole == EncodeAll(payloads) && forwarded == whole
      decreases |src.wire| - src.pos
    {
      ghost var body;
      var stop;
      forwarded, stop, body, cut := ForwardOne(src, forwarded, room);
      if stop.Some? { return forwarded, stop.value, payloads, cut; }
      AppendFrame(payloads, body);
      payloads := payloads + [body];
      whole := forwarded;
    }
  }

  lemma BigEndianUnique(h: seq<Byte>)
    requires |h| == 4
    ensures FromBigEndian(h) < MAX_LENGTH && BigEndian(FromBigEndian(h)) == h
  {
    var n2 := h[0] as int * 0x100 + h[1] as int;
    var n1 := n2 * 0x100 + h[2] as int;
    var n := n1 * 0x100 + h[3] as int;
    assert n / 0x100 == n1 && n % 0x100 == h[3];
    assert n1 / 0x100 == n2 && n1 % 0x100 == h[2];
    assert n2 / 0x100 == h[0] && n2 % 0x100 == h[1];
  }

  lemma {:induction false} AppendFrame(payloads: seq<seq<Byte>>, payload: seq<Byte>)
    requires Sendable(payloads) && |payload| < MAX_LENGTH
    ensures Sendable(payloads + [payload])
    ensures EncodeAll(payloads + [payload]) == EncodeAll(payloads) + Frame(payload)
  {
    if |payloads| > 0 {
      AppendFrame(payloads[1..], payload);
      assert (payloads + [payload])[1..] == payloads[1..] + [payload];
    } else {
      assert (payloads + [payload])[1..] == [];
    }
  }
}
