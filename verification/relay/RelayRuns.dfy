/** Whole runs of one session against a kernel that decides how many bytes move and which armed
    events fire. */
module RelayRuns {
  import opened Octets
  import opened RelaySpec

  datatype Option<T> = None | Some(value: T)

  /** The history of one direction: bytes returned by recv on one side, accepted by send on the other. */
  datatype Flow = Flow(received: seq<byte>, sent: seq<byte>)

  /** A session with its epoll registrations, the masks in force when the current batch of events was
      collected, and the history of both directions. */
  datatype Conn = Conn(
    s: SessionState, open: bool,
    armedClient: Events, armedUpstream: Events,
    batchClient: Option<Events>, batchUpstream: Option<Events>,
    up: Flow, down: Flow)

  datatype Act =
    | Wait                                                     // epoll_wait collects a batch
    | Deliver(side: Side, ev: Events, k: Kernel, now: int)     // one event of the batch is handled

  function Batch(c: Conn, side: Side): Option<Events> {
    if side == Client then c.batchClient else c.batchUpstream
  }

  /** Reported events are among those armed when the batch was collected, plus error and hangup. */
  predicate Within(ev: Events, mask: Events) {
    (ev.readable ==> mask.readable) && (ev.writable ==> mask.writable) && (ev.readHangup ==> mask.readHangup)
  }

  predicate Possible(c: Conn, a: Act) {
    match a
    case Wait => true
    case Deliver(side, ev, k, _) =>
      && c.open && Batch(c, side).Some? && Within(ev, Batch(c, side).value) && KernelFits(c.s, side, k)
  }

  /** A batch holds at most one event of each socket. */
  function Next(c: Conn, a: Act): Conn
    requires Possible(c, a)
  {
    match a
    case Wait =>
      if c.open then c.(batchClient := Some(c.armedClient), batchUpstream := Some(c.armedUpstream)) else c
    case Deliver(side, ev, k, now) =>
      var o := HandleIo(c.s, side, ev, k, now);
      Conn(o.session, o.keep,
           if o.keep then Interest(o.session, Client) else NO_EVENTS,
           if o.keep then Interest(o.session, Upstream) else NO_EVENTS,
           if side == Client then None else c.batchClient,
           if side == Upstream then None else c.batchUpstream,
           if side == Client then Flow(c.up.received + o.received, c.up.sent)
           else Flow(c.up.received, c.up.sent + o.sent),
           if side == Client then Flow(c.down.received, c.down.sent + o.sent)
           else Flow(c.down.received + o.received, c.down.sent))
  }

  predicate PossibleRun(c: Conn, acts: seq<Act>)
    decreases acts
  {
    acts == [] || (Possible(c, acts[0]) && PossibleRun(Next(c, acts[0]), acts[1..]))
  }

  function Run(c: Conn, acts: seq<Act>): Conn
    requires PossibleRun(c, acts)
    decreases acts
  {
    if acts == [] then c else Run(Next(c, acts[0]), acts[1..])
  }

  function Start(id: nat, now: int, clientFd: int, upstreamFd: int): Conn {
    var s := NewSession(id, now, clientFd, upstreamFd);
    Conn(s, true, Interest(s, Client), Interest(s, Upstream), None, None, Flow([], []), Flow([], []))
  }

  // ----- single calls

  lemma ReadIntoFacts(b: Buf, a: RecvAnswer)
    requires BufOk(b) && RecvFits(a, CAP - |b.content|)
    ensures var t := ReadInto(b, a);
            && BufOk(t.buf) && t.buf.content == b.content + t.bytes
            && (t.moved == EndOfStream || t.moved == Broken ==> t.bytes == [])
  {
  }

  lemma WriteFromFacts(b: Buf, a: SendAnswer)
    requires BufOk(b) && SendFits(a, |b.content|)
    ensures var t := WriteFrom(b, a);
            BufOk(t.buf) && t.bytes + t.buf.content == b.content
  {
  }

  /** Everything but the two buffers and the end-of-stream flags stays as it was. */
  predicate SameFrame(s: SessionState, t: SessionState) {
    && s.id == t.id && s.lastActivity == t.lastActivity
    && t.client == s.client.(readEof := t.client.readEof)
    && t.upstream == s.upstream.(readEof := t.upstream.readEof)
  }

  predicate BothOk(s: SessionState) {
    BufOk(s.toUpstream) && BufOk(s.toClient)
  }

  lemma ReadPhaseFacts(s: SessionState, side: Side, ev: Events, k: Kernel)
    requires BothOk(s) && RecvFits(k.recv, CAP - |InBuf(s, side).content|)
    ensures var (t, ok, bytes) := ReadPhase(s, side, ev, k);
            && BothOk(t) && SameFrame(s, t)
            && InBuf(t, side).content == InBuf(s, side).content + bytes && OutBuf(t, side) == OutBuf(s, side)
            && (PeerOf(s, side).readEof ==> PeerOf(t, side).readEof)
            && (side == Client ==> t.upstream == s.upstream) && (side == Upstream ==> t.client == s.client)
            && (!ev.readable ==> bytes == [])
            && (!ok ==> bytes == [])
  {
    hide ReadInto, BufOk;
    ReadIntoFacts(InBuf(s, side), k.recv);
  }

  lemma WritePhaseFacts(s: SessionState, side: Side, ev: Events, k: Kernel)
    requires BothOk(s) && SendFits(k.send, |OutBuf(s, side).content|)
    ensures var (t, ok, bytes) := WritePhase(s, side, ev, k);
            && BothOk(t) && t == WithOutBuf(s, side, OutBuf(t, side))
            && bytes + OutBuf(t, side).content == OutBuf(s, side).content && InBuf(t, side) == InBuf(s, side)
  {
    hide WriteFrom, BufOk;
    WriteFromFacts(OutBuf(s, side), k.send);
  }

  /** SHUT_WR is issued to a side only when the other side has ended and nothing is left for it, and
      then it is issued. */
  lemma HalfClosedFacts(s: SessionState)
    ensures var t := HalfClosed(s);
            && t == s.(client := s.client.(writeShutdown := t.client.writeShutdown),
                       upstream := s.upstream.(writeShutdown := t.upstream.writeShutdown))
            && (s.client.writeShutdown ==> t.client.writeShutdown)
            && (s.upstream.writeShutdown ==> t.upstream.writeShutdown)
            && (t.upstream.writeShutdown && !s.upstream.writeShutdown ==> s.client.readEof && IsEmpty(s.toUpstream))
            && (t.client.writeShutdown && !s.client.writeShutdown ==> s.upstream.readEof && IsEmpty(s.toClient))
            && (s.upstream.fd >= 0 && s.client.readEof && IsEmpty(s.toUpstream) ==> t.upstream.writeShutdown)
            && (s.client.fd >= 0 && s.upstream.readEof && IsEmpty(s.toClient) ==> t.client.writeShutdown)
  {
  }

  /** Bytes: the handled side's input grows by what was received, its output shrinks by what was sent. */
  predicate BytesMoved(s: SessionState, side: Side, ev: Events, o: Outcome) {
    && BothOk(o.session)
    && InBuf(o.session, side).content == InBuf(s, side).content + o.received
    && o.sent + OutBuf(o.session, side).content == OutBuf(s, side).content
    && |o.received| == o.tally.bytesIn
    && (!ev.readable ==> o.received == [])
  }

  /** Flags: only the handled side can reach end of stream, and no flag is ever taken back. */
  predicate FlagsKept(s: SessionState, side: Side, t: SessionState) {
    && (s.client.readEof ==> t.client.readEof) && (s.upstream.readEof ==> t.upstream.readEof)
    && (side == Upstream ==> t.client.readEof == s.client.readEof)
    && (side == Client ==> t.upstream.readEof == s.upstream.readEof)
    && (t.upstream.connecting ==> s.upstream.connecting) && t.client.connecting == s.client.connecting
    && (s.client.writeShutdown ==> t.client.writeShutdown)
    && (s.upstream.writeShutdown ==> t.upstream.writeShutdown)
    && t.client.fd == s.client.fd && t.upstream.fd == s.upstream.fd && t.id == s.id
  }

  /** SHUT_WR is issued only when the other side ended and its bytes are gone, and then at once. */
  predicate ShutInOrder(s: SessionState, t: SessionState, keep: bool) {
    && (t.upstream.writeShutdown && !s.upstream.writeShutdown ==> t.client.readEof && IsEmpty(t.toUpstream))
    && (t.client.writeShutdown && !s.client.writeShutdown ==> t.upstream.readEof && IsEmpty(t.toClient))
    && (keep && s.upstream.fd >= 0 && t.client.readEof && IsEmpty(t.toUpstream) ==> t.upstream.writeShutdown)
    && (keep && s.client.fd >= 0 && t.upstream.readEof && IsEmpty(t.toClient) ==> t.client.writeShutdown)
    && (keep ==> !FullyDone(t))
  }

  /** How a session may differ after one handled event. */
  predicate Handled(s: SessionState, side: Side, ev: Events, o: Outcome) {
    BytesMoved(s, side, ev, o) && FlagsKept(s, side, o.session) && ShutInOrder(s, o.session, o.keep)
  }

  /** A transfer phase and the flag for a reported hangup: neither shuts anything. */
  predicate Moving(s: SessionState, side: Side, t: SessionState) {
    && BothOk(t) && FlagsKept(s, side, t)
    && t.client.fd == s.client.fd && t.upstream.fd == s.upstream.fd
    && t.client.writeShutdown == s.client.writeShutdown && t.upstream.writeShutdown == s.upstream.writeShutdown
  }

  lemma ReadStage(s: SessionState, side: Side, ev: Events, k: Kernel)
    requires BothOk(s) && RecvFits(k.recv, CAP - |InBuf(s, side).content|)
    ensures var (t, ok, bytes) := ReadPhase(s, side, ev, k);
            var u := HungUp(t, side, ev);
            && Moving(s, side, t) && Moving(s, side, u)
            && OutBuf(t, side) == OutBuf(u, side) == OutBuf(s, side)
            && InBuf(t, side).content == InBuf(u, side).content == InBuf(s, side).content + bytes
            && (!ev.readable ==> bytes == []) && (!ok ==> bytes == [])
  {
    hide ReadPhase, BufOk;
    ReadPhaseFacts(s, side, ev, k);
  }

  lemma WriteStage(s: SessionState, side: Side, ev: Events, k: Kernel)
    requires BothOk(s) && SendFits(k.send, |OutBuf(s, side).content|)
    ensures var (t, ok, bytes) := WritePhase(s, side, ev, k);
            && Moving(s, side, t)
            && bytes + OutBuf(t, side).content == OutBuf(s, side).content && InBuf(t, side) == InBuf(s, side)
  {
    hide WritePhase, BufOk;
    WritePhaseFacts(s, side, ev, k);
  }

  lemma CloseStage(s: SessionState, side: Side)
    requires BothOk(s)
    ensures var t := HalfClosed(s);
            && BothOk(t) && FlagsKept(s, side, t) && t.toUpstream == s.toUpstream && t.toClient == s.toClient
            && ShutInOrder(s, t, !FullyDone(t))
  {
    hide HalfClosed, BufOk;
    HalfClosedFacts(s);
  }

  lemma FlagsCompose(s: SessionState, side: Side, t: SessionState, u: SessionState)
    requires FlagsKept(s, side, t) && FlagsKept(t, side, u)
    ensures FlagsKept(s, side, u)
  {
  }

  /** Moving bytes first does not blur what the half-close does. */
  lemma ShutAfterMoving(s: SessionState, side: Side, t: SessionState, u: SessionState, keep: bool)
    requires Moving(s, side, t) && ShutInOrder(t, u, keep)
    ensures ShutInOrder(s, u, keep)
  {
    hide FullyDone, IsEmpty;
  }

  lemma NothingShut(s: SessionState, side: Side, t: SessionState)
    requires Moving(s, side, t)
    ensures ShutInOrder(s, t, false)
  {
  }

  lemma RelayHandled(s: SessionState, side: Side, ev: Events, k: Kernel)
    requires KernelFits(s, side, k) && BothOk(s)
    ensures Handled(s, side, ev, Relay(s, side, ev, k))
  {
    hide ReadPhase, WritePhase, HalfClosed, BothOk, FlagsKept, ShutInOrder, FullyDone, HungUp;
    var o := Relay(s, side, ev, k);
    ReadStage(s, side, ev, k);
    var (s2, readOk, received) := ReadPhase(s, side, ev, k);
    if !readOk {
      NothingShut(s, side, s2);
    } else {
      var s3 := HungUp(s2, side, ev);
      WriteStage(s3, side, ev, k);
      var (s4, writeOk, sent) := WritePhase(s3, side, ev, k);
      FlagsCompose(s, side, s3, s4);
      if !writeOk {
        NothingShut(s, side, s4);
      } else {
        CloseStage(s4, side);
        var s5 := HalfClosed(s4);
        FlagsCompose(s, side, s4, s5);
        ShutAfterMoving(s, side, s4, s5, o.keep);
      }
    }
  }

  lemma IoHandled(s: SessionState, side: Side, ev: Events, k: Kernel, now: int)
    requires KernelFits(s, side, k) && BothOk(s)
    ensures Handled(s, side, ev, HandleIo(s, side, ev, k, now))
  {
    hide Relay, BufOk;
    var s0 := s.(lastActivity := now);
    RelayHandled(s0, side, ev, k);
    RelayHandled(s0.(upstream := s0.upstream.(connecting := false)), side, ev, k);
  }

  // ----- the invariant of a run

  /** Received is sent plus what the buffer still holds. */
  predicate FlowOk(f: Flow, b: Buf) {
    BufOk(b) && f.received == f.sent + b.content
  }

  predicate MayRead(m: Option<Events>) {
    m.Some? && m.value.readable
  }

  ghost predicate Inv(c: Conn) {
    // stream integrity of both directions
    && FlowOk(c.up, c.s.toUpstream) && FlowOk(c.down, c.s.toClient)
    // a write side is shut only once its source ended and everything received was sent
    && (c.s.upstream.writeShutdown ==> c.s.client.readEof && IsEmpty(c.s.toUpstream))
    && (c.s.client.writeShutdown ==> c.s.upstream.readEof && IsEmpty(c.s.toClient))
    // and in an open session it is shut as soon as that is so
    && (c.open && c.s.upstream.fd >= 0 && c.s.client.readEof && IsEmpty(c.s.toUpstream) ==> c.s.upstream.writeShutdown)
    && (c.open && c.s.client.fd >= 0 && c.s.upstream.readEof && IsEmpty(c.s.toClient) ==> c.s.client.writeShutdown)
    // the registrations are those the state asks for
    && (c.open ==> c.armedClient == Interest(c.s, Client) && c.armedUpstream == Interest(c.s, Upstream))
    && (c.open ==> !FullyDone(c.s))
    // a side at end of stream is not asked to read again, not even by an event of the current batch
    && (c.s.client.readEof ==> !MayRead(c.batchClient))
    && (c.s.upstream.readEof ==> !MayRead(c.batchUpstream))
    && (c.s.upstream.connecting ==> !MayRead(c.batchUpstream))
  }

  lemma StartInv(id: nat, now: int, clientFd: int, upstreamFd: int)
    ensures Inv(Start(id, now, clientFd, upstreamFd))
  {
  }

  lemma DeliverKeepsFlows(c: Conn, a: Act)
    requires Inv(c) && Possible(c, a) && a.Deliver?
    ensures FlowOk(Next(c, a).up, Next(c, a).s.toUpstream) && FlowOk(Next(c, a).down, Next(c, a).s.toClient)
  {
    hide HandleIo, Interest;
    IoHandled(c.s, a.side, a.ev, a.k, a.now);
  }

  lemma NextKeepsInv(c: Conn, a: Act)
    requires Inv(c) && Possible(c, a)
    ensures Inv(Next(c, a))
  {
    if a.Deliver? {
      hide HandleIo, KernelFits, FullyDone;
      IoHandled(c.s, a.side, a.ev, a.k, a.now);
      DeliverKeepsFlows(c, a);
      hide FlowOk;
    }
  }

  /** Stream integrity over every run: in each direction the bytes returned by recv are the bytes
      accepted by send followed by what the buffer holds, whatever the kernel does. */
  lemma {:induction false} RunKeepsInv(c: Conn, acts: seq<Act>)
    requires Inv(c) && PossibleRun(c, acts)
    ensures Inv(Run(c, acts))
    decreases acts
  {
    hide Inv, Next, Possible;
    if acts != [] {
      NextKeepsInv(c, acts[0]);
      RunKeepsInv(Next(c, acts[0]), acts[1..]);
    }
  }

  lemma StreamIntegrity(id: nat, now: int, clientFd: int, upstreamFd: int, acts: seq<Act>)
    requires PossibleRun(Start(id, now, clientFd, upstreamFd), acts)
    ensures var c := Run(Start(id, now, clientFd, upstreamFd), acts);
            && c.up.received == c.up.sent + c.s.toUpstream.content
            && c.down.received == c.down.sent + c.s.toClient.content
            && (c.s.upstream.writeShutdown ==> c.s.client.readEof && c.up.received == c.up.sent)
            && (c.s.client.writeShutdown ==> c.s.upstream.readEof && c.down.received == c.down.sent)
            && (c.open && c.s.upstream.fd >= 0 && c.s.client.readEof && IsEmpty(c.s.toUpstream)
                ==> c.s.upstream.writeShutdown)
            && (c.open && c.s.client.fd >= 0 && c.s.upstream.readEof && IsEmpty(c.s.toClient)
                ==> c.s.client.writeShutdown)
  {
    hide Start, Next, Possible;
    StartInv(id, now, clientFd, upstreamFd);
    RunKeepsInv(Start(id, now, clientFd, upstreamFd), acts);
  }

  // ----- after the half-close nothing moves

  lemma NextFrozen(c: Conn, a: Act)
    requires Inv(c) && Possible(c, a)
    ensures c.s.upstream.writeShutdown ==> Next(c, a).s.upstream.writeShutdown && Next(c, a).up == c.up
    ensures c.s.client.writeShutdown ==> Next(c, a).s.client.writeShutdown && Next(c, a).down == c.down
  {
    if a.Deliver? {
      hide HandleIo, Interest;
      IoHandled(c.s, a.side, a.ev, a.k, a.now);
    }
  }

  /** Once a side's write half is shut, no byte of that direction moves again, in any run. */
  lemma {:induction false} HalfCloseIsFinal(c: Conn, acts: seq<Act>)
    requires Inv(c) && PossibleRun(c, acts)
    ensures c.s.upstream.writeShutdown ==> Run(c, acts).up == c.up
    ensures c.s.client.writeShutdown ==> Run(c, acts).down == c.down
    decreases acts
  {
    hide Inv, Next, Possible;
    if acts != [] {
      NextKeepsInv(c, acts[0]);
      NextFrozen(c, acts[0]);
      HalfCloseIsFinal(Next(c, acts[0]), acts[1..]);
    }
  }

  // ----- the relay never disarms itself into a stall

  /** For a direction from `side`: its source is armed for reading, or its destination for writing. */
  predicate DirectionArmed(s: SessionState, side: Side) {
    Interest(s, side).readable
    || (if side == Client then Interest(s, Upstream).writable else Interest(s, Client).writable)
    || (s.upstream.connecting && Interest(s, Upstream).writable)
  }

  /** With rewound empty buffers, every direction whose source has not ended is armed at one end, every
      non-empty buffer is armed for writing, and a session that is not done is armed somewhere. */
  lemma NoStall(s: SessionState)
    requires BufOk(s.toUpstream) && BufOk(s.toClient)
    ensures !s.client.readEof ==> DirectionArmed(s, Client)
    ensures !s.upstream.readEof ==> DirectionArmed(s, Upstream)
    ensures !IsEmpty(s.toUpstream) ==> Interest(s, Upstream).writable
    ensures !IsEmpty(s.toClient) ==> Interest(s, Client).writable
    ensures !FullyDone(s) ==>
              Interest(s, Client).readable || Interest(s, Client).writable
              || Interest(s, Upstream).readable || Interest(s, Upstream).writable
  {
  }

  /** Without the rewinding a session could stall: a buffer drained at its very end counts as full. */
  lemma UnwoundBufferStalls()
    ensures var s := NewSession(1, 0, 5, 6).(upstream := Peer(6, false, false, false), toUpstream := Buf(CAP, []));
            !s.client.readEof && !DirectionArmed(s, Client)
  {
  }

  predicate Armed(c: Conn) {
    && (!c.s.client.readEof ==> c.armedClient.readable || c.armedUpstream.writable)
    && (!c.s.upstream.readEof ==> c.armedUpstream.readable || c.armedClient.writable || c.armedUpstream.writable)
    && (!IsEmpty(c.s.toUpstream) ==> c.armedUpstream.writable)
    && (!IsEmpty(c.s.toClient) ==> c.armedClient.writable)
    && (c.armedClient.readable || c.armedClient.writable || c.armedUpstream.readable || c.armedUpstream.writable)
  }

  /** In every reachable open session the masks last registered can still move it. */
  lemma RunNeverStalls(id: nat, now: int, clientFd: int, upstreamFd: int, acts: seq<Act>)
    requires PossibleRun(Start(id, now, clientFd, upstreamFd), acts)
    ensures var c := Run(Start(id, now, clientFd, upstreamFd), acts);
            c.open ==> Armed(c)
  {
    var c := Run(Start(id, now, clientFd, upstreamFd), acts);
    StartInv(id, now, clientFd, upstreamFd);
    RunKeepsInv(Start(id, now, clientFd, upstreamFd), acts);
    hide Start, Run, Interest, FullyDone, Next;
    ArmedFromInv(c);
  }

  lemma ArmedFromInv(c: Conn)
    requires Inv(c)
    ensures c.open ==> Armed(c)
  {
    NoStall(c.s);
  }
}
