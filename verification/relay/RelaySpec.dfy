/** One relay session in plain values, and what one delivered event does to it (infinity.c). */
module RelaySpec {
  import opened Octets

  const CAP: nat := 65536

  // ----- buffers

  /** A buffer between `start` and `end`: the bytes in between, and where they start. */
  datatype Buf = Buf(start: nat, content: seq<byte>)

  const EMPTY_BUF := Buf(0, [])

  function End(b: Buf): nat { b.start + |b.content| }
  predicate IsEmpty(b: Buf) { b.content == [] }
  function Space(b: Buf): int { CAP - End(b) }

  /** Within capacity, and an empty buffer has been rewound. */
  predicate BufOk(b: Buf) {
    End(b) <= CAP && (b.content == [] ==> b.start == 0)
  }

  function Compacted(b: Buf): Buf {
    if b.start > 0 && b.content != [] then Buf(0, b.content)
    else if b.content == [] then EMPTY_BUF
    else b
  }

  /** What the kernel may answer to recv and send. */
  datatype RecvAnswer = Received(data: seq<byte>) | RecvEof | RecvAgain | RecvFailed
  datatype SendAnswer = Accepted(n: nat) | SendAgain | SendFailed

  /** A successful recv returns between one byte and the room it was given. */
  predicate RecvFits(a: RecvAnswer, room: int) {
    a.Received? ==> 0 < |a.data| <= room
  }

  /** A successful send takes between one byte and all it was offered. */
  predicate SendFits(a: SendAnswer, size: nat) {
    a.Accepted? ==> 0 < a.n <= size
  }

  datatype Moved = Progress | Nothing | EndOfStream | Broken

  /** What one relay call leaves: the buffer, its verdict, and the bytes that crossed the socket. */
  datatype Transfer = Transfer(buf: Buf, moved: Moved, bytes: seq<byte>)

  function ReadInto(b: Buf, a: RecvAnswer): Transfer {
    var c := Compacted(b);
    if Space(c) == 0 then Transfer(c, Nothing, []) else
    match a
    case Received(data) => Transfer(Buf(c.start, c.content + data), Progress, data)
    case RecvEof => Transfer(c, EndOfStream, [])
    case RecvAgain => Transfer(c, Nothing, [])
    case RecvFailed => Transfer(c, Broken, [])
  }

  function WriteFrom(b: Buf, a: SendAnswer): Transfer
    requires SendFits(a, |b.content|)
  {
    if IsEmpty(b) then Transfer(b, Nothing, []) else
    match a
    case Accepted(n) =>
      Transfer(if n == |b.content| then EMPTY_BUF else Buf(b.start + n, b.content[n..]), Progress, b.content[..n])
    case SendAgain => Transfer(b, Nothing, [])
    case SendFailed => Transfer(b, Broken, [])
  }

  // ----- sessions

  datatype Peer = Peer(fd: int, readEof: bool, writeShutdown: bool, connecting: bool)

  datatype Side = Client | Upstream

  datatype SessionState = SessionState(
    id: nat, lastActivity: int, client: Peer, upstream: Peer, toUpstream: Buf, toClient: Buf)

  /** The epoll bits a session uses. */
  datatype Events = Events(readable: bool, writable: bool, error: bool, hangup: bool, readHangup: bool)

  const NO_EVENTS := Events(false, false, false, false, false)

  /** session_events_for_side */
  function Interest(s: SessionState, side: Side): Events {
    match side
    case Client =>
      Events(!s.client.readEof && Space(s.toUpstream) > 0, !IsEmpty(s.toClient), true, true, true)
    case Upstream =>
      if s.upstream.connecting then Events(false, true, true, true, true)
      else Events(!s.upstream.readEof && Space(s.toClient) > 0, !IsEmpty(s.toUpstream), true, true, true)
  }

  /** session_fully_done */
  predicate FullyDone(s: SessionState) {
    s.client.readEof && s.upstream.readEof && IsEmpty(s.toUpstream) && IsEmpty(s.toClient)
  }

  /** peer_shutdown_write */
  function ShutDown(p: Peer): Peer {
    if p.fd >= 0 && !p.writeShutdown then p.(writeShutdown := true) else p
  }

  /** session_consider_half_close */
  function HalfClosed(s: SessionState): SessionState {
    var s1 := if s.client.readEof && IsEmpty(s.toUpstream) then s.(upstream := ShutDown(s.upstream)) else s;
    if s1.upstream.readEof && IsEmpty(s1.toClient) then s1.(client := ShutDown(s1.client)) else s1
  }

  /** Everything the kernel decides during one call of handle_side_io. */
  datatype Kernel = Kernel(connectFailed: bool, recv: RecvAnswer, send: SendAnswer)

  /** What one call adds to the counters. */
  datatype Tally = Tally(bytesIn: nat, readErrors: nat, writeErrors: nat, connectFails: nat)

  /** The state afterwards, whether the session is kept, and the bytes that crossed each socket. */
  datatype Outcome = Outcome(
    session: SessionState, keep: bool, received: seq<byte>, sent: seq<byte>, tally: Tally)

  function PeerOf(s: SessionState, side: Side): Peer {
    if side == Client then s.client else s.upstream
  }

  /** The buffer filled from a side, and the buffer drained to it. */
  function InBuf(s: SessionState, side: Side): Buf {
    if side == Client then s.toUpstream else s.toClient
  }

  function OutBuf(s: SessionState, side: Side): Buf {
    if side == Client then s.toClient else s.toUpstream
  }

  function WithPeer(s: SessionState, side: Side, p: Peer): SessionState {
    if side == Client then s.(client := p) else s.(upstream := p)
  }

  function WithInBuf(s: SessionState, side: Side, b: Buf): SessionState {
    if side == Client then s.(toUpstream := b) else s.(toClient := b)
  }

  function WithOutBuf(s: SessionState, side: Side, b: Buf): SessionState {
    if side == Client then s.(toClient := b) else s.(toUpstream := b)
  }

  /** The answers fit the calls that will be made. */
  predicate KernelFits(s: SessionState, side: Side, k: Kernel) {
    RecvFits(k.recv, CAP - |InBuf(s, side).content|) && SendFits(k.send, |OutBuf(s, side).content|)
  }

  /** The read half of handle_side_io: the new state, whether to go on, and the bytes received. */
  function ReadPhase(s: SessionState, side: Side, ev: Events, k: Kernel): (SessionState, bool, seq<byte>) {
    if !ev.readable then (s, true, []) else
    var t := ReadInto(InBuf(s, side), k.recv);
    var s1 := WithInBuf(s, side, t.buf);
    match t.moved
    case EndOfStream => (WithPeer(s1, side, PeerOf(s1, side).(readEof := true)), true, [])
    case Broken => (s1, false, [])
    case _ => (s1, true, t.bytes)
  }

  /** The write half. */
  function WritePhase(s: SessionState, side: Side, ev: Events, k: Kernel): (SessionState, bool, seq<byte>)
    requires SendFits(k.send, |OutBuf(s, side).content|)
  {
    if !ev.writable || (side == Upstream && s.upstream.connecting) then (s, true, []) else
    var t := WriteFrom(OutBuf(s, side), k.send);
    (WithOutBuf(s, side, t.buf), t.moved != Broken, t.bytes)
  }

  /** A reported EPOLLRDHUP counts as end of stream. */
  function HungUp(s: SessionState, side: Side, ev: Events): SessionState {
    if ev.readHangup then WithPeer(s, side, PeerOf(s, side).(readEof := true)) else s
  }

  /** Whether this event finishes the pending connect, one way or the other. */
  predicate CompletesConnect(s: SessionState, side: Side, ev: Events) {
    side == Upstream && s.upstream.connecting && ev.writable
  }

  /** handle_side_io once errors and the pending connect are dealt with: read, write, half-close. */
  function Relay(s: SessionState, side: Side, ev: Events, k: Kernel): Outcome
    requires KernelFits(s, side, k)
  {
    var (s2, readOk, received) := ReadPhase(s, side, ev, k);
    if !readOk then Outcome(s2, false, [], [], Tally(0, 1, 0, 0)) else
    var s3 := HungUp(s2, side, ev);
    var (s4, writeOk, sent) := WritePhase(s3, side, ev, k);
    if !writeOk then Outcome(s4, false, received, sent, Tally(|received|, 0, 1, 0)) else
    var s5 := HalfClosed(s4);
    Outcome(s5, !FullyDone(s5), received, sent, Tally(|received|, 0, 0, 0))
  }

  /** handle_side_io */
  function HandleIo(s: SessionState, side: Side, ev: Events, k: Kernel, now: int): Outcome
    requires KernelFits(s, side, k)
  {
    var s0 := s.(lastActivity := now);
    if ev.error || ev.hangup then Outcome(s0, false, [], [], Tally(0, 0, 0, 0))
    else if CompletesConnect(s, side, ev) then
      if k.connectFailed then Outcome(s0, false, [], [], Tally(0, 0, 0, 1))
      else Relay(s0.(upstream := s0.upstream.(connecting := false)), side, ev, k)
    else Relay(s0, side, ev, k)
  }

  /** A new session right after accept and connect. */
  function NewSession(id: nat, now: int, clientFd: int, upstreamFd: int): SessionState {
    SessionState(id, now, Peer(clientFd, false, false, false), Peer(upstreamFd, false, false, true),
                 EMPTY_BUF, EMPTY_BUF)
  }
}
