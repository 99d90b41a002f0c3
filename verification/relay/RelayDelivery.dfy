/** From one peer to the other: a session together with what the two peers have said and what of it the
    kernel still holds for the relay. */
module RelayDelivery {
  import opened Octets
  import opened RelaySpec
  import RelayRuns

  /** One source: everything its peer has said so far, what of it recv has not returned yet, and whether
      the peer has finished. */
  datatype Source = Source(said: seq<byte>, left: seq<byte>, finished: bool)

  datatype Wire = Wire(c: RelayRuns.Conn, client: Source, upstream: Source)

  datatype Act =
    | Says(side: Side, data: seq<byte>)
    | Finishes(side: Side)
    | Relays(a: RelayRuns.Act)

  function SourceOf(w: Wire, side: Side): Source {
    if side == Client then w.client else w.upstream
  }

  function WithSource(w: Wire, side: Side, s: Source): Wire {
    if side == Client then w.(client := s) else w.(upstream := s)
  }

  /** recv returns the oldest bytes it holds, end of stream only when it holds none and the peer has
      finished; a hangup is reported only once the peer has finished. */
  predicate Honest(s: Source, ev: Events, k: Kernel) {
    && (k.recv.Received? ==> k.recv.data <= s.left)
    && (k.recv.RecvEof? ==> s.left == [] && s.finished)
    && (ev.readHangup ==> s.finished)
  }

  predicate Possible(w: Wire, a: Act) {
    match a
    case Says(side, _) => !SourceOf(w, side).finished
    case Finishes(side) => !SourceOf(w, side).finished
    case Relays(r) =>
      RelayRuns.Possible(w.c, r) && (r.Deliver? ==> Honest(SourceOf(w, r.side), r.ev, r.k))
  }

  /** The source once `n` of the bytes it holds were received. */
  function After(s: Source, n: nat): Source {
    if n <= |s.left| then s.(left := s.left[n..]) else s.(left := [])
  }

  function Next(w: Wire, a: Act): Wire
    requires Possible(w, a)
  {
    match a
    case Says(side, data) =>
      var s := SourceOf(w, side);
      WithSource(w, side, s.(said := s.said + data, left := s.left + data))
    case Finishes(side) => WithSource(w, side, SourceOf(w, side).(finished := true))
    case Relays(r) =>
      var c := RelayRuns.Next(w.c, r);
      if r.Wait? then w.(c := c) else
      var o := HandleIo(w.c.s, r.side, r.ev, r.k, r.now);
      WithSource(w.(c := c), r.side, After(SourceOf(w, r.side), |o.received|))
  }

  predicate PossibleRun(w: Wire, acts: seq<Act>)
    decreases acts
  {
    acts == [] || (Possible(w, acts[0]) && PossibleRun(Next(w, acts[0]), acts[1..]))
  }

  function Run(w: Wire, acts: seq<Act>): Wire
    requires PossibleRun(w, acts)
    decreases acts
  {
    if acts == [] then w else Run(Next(w, acts[0]), acts[1..])
  }

  function Start(id: nat, now: int, clientFd: int, upstreamFd: int): Wire {
    Wire(RelayRuns.Start(id, now, clientFd, upstreamFd), Source([], [], false), Source([], [], false))
  }

  // ----- what a handled event takes from its source

  lemma ReceivedIs(s: SessionState, side: Side, ev: Events, k: Kernel, now: int)
    requires KernelFits(s, side, k)
    ensures var o := HandleIo(s, side, ev, k, now);
            o.received == [] || (k.recv.Received? && o.received == k.recv.data)
  {
    hide WritePhase, HalfClosed, FullyDone;
  }

  /** A side reaches end of stream only by an empty recv or a reported hangup. */
  lemma EofCause(s: SessionState, side: Side, ev: Events, k: Kernel, now: int)
    requires KernelFits(s, side, k)
    ensures var t := HandleIo(s, side, ev, k, now).session;
            PeerOf(t, side).readEof && !PeerOf(s, side).readEof ==> ev.readHangup || k.recv.RecvEof?
  {
    hide FullyDone;
  }

  // ----- the invariant

  /** What the peer said is what was received and what is left, and end of stream is not invented. */
  predicate SourceOk(s: Source, f: RelayRuns.Flow, p: Peer) {
    s.said == f.received + s.left && (p.readEof ==> s.finished)
  }

  ghost predicate Inv(w: Wire) {
    && RelayRuns.Inv(w.c)
    && SourceOk(w.client, w.c.up, w.c.s.client) && SourceOk(w.upstream, w.c.down, w.c.s.upstream)
  }

  lemma SourceKept(s: Source, f: seq<byte>, bytes: seq<byte>)
    requires s.said == f + s.left && bytes <= s.left
    ensures s.said == (f + bytes) + After(s, |bytes|).left
  {
    assert bytes + s.left[|bytes|..] == s.left;
  }

  lemma SpeechKept(s: Source, f: seq<byte>, data: seq<byte>)
    requires s.said == f + s.left
    ensures s.said + data == f + (s.left + data)
  {
  }

  lemma DeliverKeepsInv(w: Wire, a: Act)
    requires Inv(w) && Possible(w, a) && a.Relays? && a.a.Deliver?
    ensures Inv(Next(w, a))
  {
    hide HandleIo, RelayRuns.Inv, Interest, KernelFits;
    var r := a.a;
    RelayRuns.NextKeepsInv(w.c, r);
    ReceivedIs(w.c.s, r.side, r.ev, r.k, r.now);
    EofCause(w.c.s, r.side, r.ev, r.k, r.now);
    FlagsOf(w.c, r);
    var o := HandleIo(w.c.s, r.side, r.ev, r.k, r.now);
    var s := SourceOf(w, r.side);
    assert o.received <= s.left;
    SourceKept(s, if r.side == Client then w.c.up.received else w.c.down.received, o.received);
  }

  /** The other side's end-of-stream flag stays. */
  lemma FlagsOf(c: RelayRuns.Conn, r: RelayRuns.Act)
    requires RelayRuns.Inv(c) && RelayRuns.Possible(c, r) && r.Deliver?
    ensures var t := HandleIo(c.s, r.side, r.ev, r.k, r.now).session;
            if r.side == Client then t.upstream.readEof == c.s.upstream.readEof
            else t.client.readEof == c.s.client.readEof
  {
    hide HandleIo, Interest, RelayRuns.BytesMoved, RelayRuns.ShutInOrder, KernelFits;
    RelayRuns.IoHandled(c.s, r.side, r.ev, r.k, r.now);
  }

  lemma NextKeepsInv(w: Wire, a: Act)
    requires Inv(w) && Possible(w, a)
    ensures Inv(Next(w, a))
  {
    match a {
      case Says(side, data) =>
        hide RelayRuns.Inv;
        SpeechKept(SourceOf(w, side), if side == Client then w.c.up.received else w.c.down.received, data);
      case Finishes(side) =>
        hide RelayRuns.Inv;
      case Relays(r) =>
        if r.Deliver? {
          hide *;
          DeliverKeepsInv(w, a);
        } else {
          hide RelayRuns.Inv;
          RelayRuns.NextKeepsInv(w.c, r);
        }
    }
  }

  lemma {:induction false} RunKeepsInv(w: Wire, acts: seq<Act>)
    requires Inv(w) && PossibleRun(w, acts)
    ensures Inv(Run(w, acts))
    decreases acts
  {
    hide Inv, Next, Possible;
    if acts != [] {
      NextKeepsInv(w, acts[0]);
      RunKeepsInv(Next(w, acts[0]), acts[1..]);
    }
  }

  lemma StartInv(id: nat, now: int, clientFd: int, upstreamFd: int)
    ensures Inv(Start(id, now, clientFd, upstreamFd))
  {
    RelayRuns.StartInv(id, now, clientFd, upstreamFd);
  }

  /** From peer to peer, over every run: what one peer said is what the other was sent, then what the
      relay buffers, then what the kernel still holds for the relay. */
  lemma NothingInvented(id: nat, now: int, clientFd: int, upstreamFd: int, acts: seq<Act>)
    requires PossibleRun(Start(id, now, clientFd, upstreamFd), acts)
    ensures var w := Run(Start(id, now, clientFd, upstreamFd), acts);
            && w.client.said == w.c.up.sent + w.c.s.toUpstream.content + w.client.left
            && w.upstream.said == w.c.down.sent + w.c.s.toClient.content + w.upstream.left
  {
    hide Start, Next, Possible;
    StartInv(id, now, clientFd, upstreamFd);
    RunKeepsInv(Start(id, now, clientFd, upstreamFd), acts);
  }

  // ----- what is lost

  /** Once a side is at end of stream, what the kernel holds of it is never read and never grows. */
  lemma NextLeaves(w: Wire, a: Act)
    requires Inv(w) && Possible(w, a)
    ensures w.c.s.client.readEof ==> Next(w, a).client == w.client && Next(w, a).c.s.client.readEof
    ensures w.c.s.upstream.readEof ==> Next(w, a).upstream == w.upstream && Next(w, a).c.s.upstream.readEof
  {
    if a.Relays? && a.a.Deliver? {
      var r := a.a;
      hide HandleIo, Interest, RelayRuns.FlowOk, KernelFits, FullyDone;
      RelayRuns.IoHandled(w.c.s, r.side, r.ev, r.k, r.now);
    }
  }

  lemma {:induction false} RunLeaves(w: Wire, acts: seq<Act>)
    requires Inv(w) && PossibleRun(w, acts)
    ensures w.c.s.client.readEof ==> Run(w, acts).client == w.client
    ensures w.c.s.upstream.readEof ==> Run(w, acts).upstream == w.upstream
    decreases acts
  {
    hide Inv, Next, Possible;
    if acts != [] {
      NextKeepsInv(w, acts[0]);
      NextLeaves(w, acts[0]);
      RunLeaves(Next(w, acts[0]), acts[1..]);
    }
  }

  /** What a side loses is decided when it reaches end of stream: exactly the bytes the kernel holds of
      it then. Whenever later the other side's write half is shut, it was sent everything but those, and
      so everything said if and only if there are none. */
  lemma LossIsWhatWasLeft(id: nat, now: int, clientFd: int, upstreamFd: int, acts: seq<Act>, more: seq<Act>)
    requires PossibleRun(Start(id, now, clientFd, upstreamFd), acts)
    requires PossibleRun(Run(Start(id, now, clientFd, upstreamFd), acts), more)
    ensures var w := Run(Start(id, now, clientFd, upstreamFd), acts);
            var u := Run(w, more);
            && (w.c.s.client.readEof && u.c.s.upstream.writeShutdown ==>
                  u.client.said == u.c.up.sent + w.client.left
                  && (u.c.up.sent == u.client.said <==> w.client.left == []))
            && (w.c.s.upstream.readEof && u.c.s.client.writeShutdown ==>
                  u.upstream.said == u.c.down.sent + w.upstream.left
                  && (u.c.down.sent == u.upstream.said <==> w.upstream.left == []))
  {
    hide Start, Next, Possible, Run;
    StartInv(id, now, clientFd, upstreamFd);
    RunKeepsInv(Start(id, now, clientFd, upstreamFd), acts);
    var w := Run(Start(id, now, clientFd, upstreamFd), acts);
    RunKeepsInv(w, more);
    RunLeaves(w, more);
    ShutMeansSent(Run(w, more));
  }

  lemma ShutMeansSent(w: Wire)
    requires Inv(w)
    ensures w.c.s.upstream.writeShutdown ==> w.client.said == w.c.up.sent + w.client.left
    ensures w.c.s.client.writeShutdown ==> w.upstream.said == w.c.down.sent + w.upstream.left
  {
  }

  /** An event that brings a side to end of stream without reporting a hangup leaves nothing behind. */
  lemma EmptyRecvLosesNothing(w: Wire, r: RelayRuns.Act)
    requires Inv(w) && Possible(w, Relays(r)) && r.Deliver? && !r.ev.readHangup
    requires !PeerOf(w.c.s, r.side).readEof && PeerOf(Next(w, Relays(r)).c.s, r.side).readEof
    ensures SourceOf(Next(w, Relays(r)), r.side).left == []
  {
    hide HandleIo, Inv, Interest;
    EofCause(w.c.s, r.side, r.ev, r.k, r.now);
    ReceivedIs(w.c.s, r.side, r.ev, r.k, r.now);
  }

  lemma RunFrom(w: Wire, a: Act, acts: seq<Act>)
    requires Possible(w, a) && PossibleRun(Next(w, a), acts)
    ensures PossibleRun(w, [a] + acts) && Run(w, [a] + acts) == Run(Next(w, a), acts)
  {
    hide Next, Possible;
    assert ([a] + acts)[1..] == acts;
  }

  /** An event that reports a hangup together with readable bytes, of which the first is read. */
  function HangupEvent(b: byte): RelayRuns.Act {
    RelayRuns.Deliver(Client, Events(true, false, false, false, true), Kernel(false, Received([b]), SendAgain), 0)
  }

  /** A hangup does lose bytes: a client says two and finishes, and the one event that reports both reads
      the first only. */
  lemma HangupLosesAByte(a: byte, b: byte)
    ensures var w := Start(1, 0, 5, 6);
            var acts := [Says(Client, [a, b])] + ([Finishes(Client)]
                        + ([Relays(RelayRuns.Wait)] + ([Relays(HangupEvent(a))] + [])));
            PossibleRun(w, acts) && Run(w, acts).c.s.client.readEof && Run(w, acts).client.left == [b]
  {
    hide Run, PossibleRun;
    var w0 := Start(1, 0, 5, 6);
    var w1 := Next(w0, Says(Client, [a, b]));
    var w2 := Next(w1, Finishes(Client));
    var w3 := Next(w2, Relays(RelayRuns.Wait));
    assert w3.client.left == [a, b] && [a] <= [a, b];
    LastEvent(w3, a, b);
    var e := Relays(HangupEvent(a));
    RunEmpty(Next(w3, e));
    RunFrom(w3, e, []);
    RunFrom(w2, Relays(RelayRuns.Wait), [e] + []);
    RunFrom(w1, Finishes(Client), [Relays(RelayRuns.Wait)] + ([e] + []));
    RunFrom(w0, Says(Client, [a, b]), [Finishes(Client)] + ([Relays(RelayRuns.Wait)] + ([e] + [])));
  }

  lemma RunEmpty(w: Wire)
    ensures PossibleRun(w, []) && Run(w, []) == w
  {
  }

  lemma LastEvent(w: Wire, a: byte, b: byte)
    requires w.c.open && w.c.batchClient == RelayRuns.Some(Events(true, false, true, true, true)) && w.client.finished
    requires w.c.s.toUpstream == EMPTY_BUF && w.client.left == [a, b]
    ensures Possible(w, Relays(HangupEvent(a)))
    ensures var t := Next(w, Relays(HangupEvent(a)));
            t.c.s.client.readEof && t.client.left == [b]
  {
    assert [a] <= [a, b] && [a, b][1..] == [b];
  }
}
