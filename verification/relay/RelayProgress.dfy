/** What one handled event achieves, and that a session whose kernel makes progress delivers everything. */
module RelayProgress {
  import opened Octets
  import opened RelaySpec
  import RelayRuns
  import opened RelayDelivery

  // ----- one event

  /** Nothing is relayed: the event reports an error or a hangup, or a connect that failed. */
  predicate Refused(s: SessionState, side: Side, ev: Events, k: Kernel) {
    ev.error || ev.hangup || (side == Upstream && s.upstream.connecting && ev.writable && k.connectFailed)
  }

  /** recv is called: the event is readable and the buffer has room. */
  predicate Reads(s: SessionState, side: Side, ev: Events, k: Kernel) {
    !Refused(s, side, ev, k) && ev.readable && |InBuf(s, side).content| < CAP
  }

  predicate ReadBreaks(s: SessionState, side: Side, ev: Events, k: Kernel) {
    Reads(s, side, ev, k) && k.recv.RecvFailed?
  }

  /** send is called: the event is writable and there is something to send. A writable event on the upstream
      side has completed a pending connect by then. */
  predicate Writes(s: SessionState, side: Side, ev: Events, k: Kernel) {
    !Refused(s, side, ev, k) && !ReadBreaks(s, side, ev, k) && ev.writable && OutBuf(s, side).content != []
  }

  predicate WriteBreaks(s: SessionState, side: Side, ev: Events, k: Kernel) {
    Writes(s, side, ev, k) && k.send.SendFailed?
  }

  /** The bytes a handled event moves. */
  predicate MovesBytes(s: SessionState, side: Side, ev: Events, k: Kernel, o: Outcome)
    requires KernelFits(s, side, k)
  {
    && o.received == (if Reads(s, side, ev, k) && k.recv.Received? then k.recv.data else [])
    && o.sent == (if Writes(s, side, ev, k) && k.send.Accepted? then OutBuf(s, side).content[..k.send.n] else [])
  }

  /** The flags it sets: a writable event ends a pending connect; end of stream comes from an empty recv or
      a reported hangup. */
  predicate SetsFlags(s: SessionState, side: Side, ev: Events, k: Kernel, now: int, t: SessionState) {
    && t.lastActivity == now
    && (t.upstream.connecting
        <==> s.upstream.connecting && (Refused(s, side, ev, k) || side == Client || !ev.writable))
    && (PeerOf(t, side).readEof
        <==> PeerOf(s, side).readEof || (Reads(s, side, ev, k) && k.recv.RecvEof?)
             || (ev.readHangup && !Refused(s, side, ev, k) && !ReadBreaks(s, side, ev, k)))
  }

  /** When the session goes on, and what is counted. */
  predicate Concludes(s: SessionState, side: Side, ev: Events, k: Kernel, o: Outcome) {
    && (o.keep <==> !Refused(s, side, ev, k) && !ReadBreaks(s, side, ev, k) && !WriteBreaks(s, side, ev, k)
                    && !(o.session.client.readEof && o.session.upstream.readEof
                         && o.session.toUpstream.content == [] && o.session.toClient.content == []))
    && o.tally.bytesIn == |o.received|
    && o.tally.readErrors == (if ReadBreaks(s, side, ev, k) then 1 else 0)
    && o.tally.writeErrors == (if WriteBreaks(s, side, ev, k) then 1 else 0)
    && o.tally.connectFails == (if Refused(s, side, ev, k) && !ev.error && !ev.hangup then 1 else 0)
  }

  lemma ReadIntoIs(b: Buf, a: RecvAnswer)
    requires BufOk(b) && RecvFits(a, CAP - |b.content|)
    ensures |b.content| <= CAP
    ensures var t := ReadInto(b, a);
            if |b.content| == CAP then t.moved == Nothing && t.bytes == []
            else
              && t.bytes == (if a.Received? then a.data else [])
              && (t.moved == EndOfStream <==> a.RecvEof?) && (t.moved == Broken <==> a.RecvFailed?)
  {
  }

  lemma WriteFromIs(b: Buf, a: SendAnswer)
    requires SendFits(a, |b.content|)
    ensures var t := WriteFrom(b, a);
            && t.bytes == (if b.content != [] && a.Accepted? then b.content[..a.n] else [])
            && (t.moved == Broken <==> b.content != [] && a.SendFailed?)
  {
  }

  lemma ReadPhaseIs(s: SessionState, side: Side, ev: Events, k: Kernel)
    requires RelayRuns.BothOk(s) && RecvFits(k.recv, CAP - |InBuf(s, side).content|)
    ensures var (t, ok, bytes) := ReadPhase(s, side, ev, k);
            var tried := ev.readable && |InBuf(s, side).content| < CAP;
            && bytes == (if tried && k.recv.Received? then k.recv.data else [])
            && (ok <==> !(tried && k.recv.RecvFailed?))
            && t.lastActivity == s.lastActivity && t.upstream.connecting == s.upstream.connecting
            && OutBuf(t, side) == OutBuf(s, side)
            && (PeerOf(t, side).readEof <==> PeerOf(s, side).readEof || (tried && k.recv.RecvEof?))
  {
    hide ReadInto, BufOk;
    ReadIntoIs(InBuf(s, side), k.recv);
  }

  lemma WritePhaseIs(s: SessionState, side: Side, ev: Events, k: Kernel)
    requires SendFits(k.send, |OutBuf(s, side).content|)
    requires side == Upstream && ev.writable ==> !s.upstream.connecting
    ensures var (t, ok, bytes) := WritePhase(s, side, ev, k);
            var tried := ev.writable && OutBuf(s, side).content != [];
            && bytes == (if tried && k.send.Accepted? then OutBuf(s, side).content[..k.send.n] else [])
            && (ok <==> !(tried && k.send.SendFailed?))
            && t.lastActivity == s.lastActivity && t.upstream == s.upstream && t.client == s.client
  {
    hide WriteFrom;
    WriteFromIs(OutBuf(s, side), k.send);
  }

  lemma HalfClosedKeeps(s: SessionState)
    ensures var t := HalfClosed(s);
            && t.lastActivity == s.lastActivity && t.upstream.connecting == s.upstream.connecting
            && t.client.readEof == s.client.readEof && t.upstream.readEof == s.upstream.readEof
            && t.toUpstream == s.toUpstream && t.toClient == s.toClient
  {
  }

  lemma HungUpKeeps(s: SessionState, side: Side, ev: Events)
    ensures var t := HungUp(s, side, ev);
            && t.lastActivity == s.lastActivity && t.upstream.connecting == s.upstream.connecting
            && OutBuf(t, side) == OutBuf(s, side)
            && (PeerOf(t, side).readEof <==> PeerOf(s, side).readEof || ev.readHangup)
  {
  }

  /** The relaying part, with the connect settled. */
  lemma RelayIs(s: SessionState, side: Side, ev: Events, k: Kernel)
    requires RelayRuns.BothOk(s) && KernelFits(s, side, k) && !Refused(s, side, ev, k)
    requires side == Upstream && ev.writable ==> !s.upstream.connecting
    ensures MovesBytes(s, side, ev, k, Relay(s, side, ev, k)) && Concludes(s, side, ev, k, Relay(s, side, ev, k))
    ensures SetsFlags(s, side, ev, k, s.lastActivity, Relay(s, side, ev, k).session)
  {
    hide ReadPhase, WritePhase, HalfClosed, HungUp, RelayRuns.BothOk, PeerOf, InBuf, OutBuf;
    ReadPhaseIs(s, side, ev, k);
    var (s2, readOk, received) := ReadPhase(s, side, ev, k);
    HungUpKeeps(s2, side, ev);
    var s3 := HungUp(s2, side, ev);
    if readOk {
      WritePhaseIs(s3, side, ev, k);
      var (s4, writeOk, sent) := WritePhase(s3, side, ev, k);
      SamePeers(s3, s4, side);
      HalfClosedKeeps(s4);
      SameEof(s4, HalfClosed(s4), side);
    }
  }

  lemma SamePeers(s: SessionState, t: SessionState, side: Side)
    requires t.client == s.client && t.upstream == s.upstream
    ensures PeerOf(t, side) == PeerOf(s, side)
  {
  }

  lemma SameEof(s: SessionState, t: SessionState, side: Side)
    requires t.client.readEof == s.client.readEof && t.upstream.readEof == s.upstream.readEof
    ensures PeerOf(t, side).readEof == PeerOf(s, side).readEof
  {
  }

  /** A session as handle_side_io has it when the pending connect, if any, is settled. */
  lemma SettledConnect(s: SessionState, side: Side, ev: Events, k: Kernel, now: int)
    ensures var t := s.(lastActivity := now, upstream := s.upstream.(connecting := false));
            && InBuf(t, side) == InBuf(s, side) && OutBuf(t, side) == OutBuf(s, side)
            && PeerOf(t, side).readEof == PeerOf(s, side).readEof
            && (RelayRuns.BothOk(s) ==> RelayRuns.BothOk(t))
  {
    hide BufOk;
  }

  /** Everything one event does, from the event, the kernel's answers and the state before it. */
  lemma EventLaw(s: SessionState, side: Side, ev: Events, k: Kernel, now: int)
    requires RelayRuns.BothOk(s) && KernelFits(s, side, k)
    ensures var o := HandleIo(s, side, ev, k, now);
            MovesBytes(s, side, ev, k, o) && SetsFlags(s, side, ev, k, now, o.session) && Concludes(s, side, ev, k, o)
  {
    hide Relay, BufOk;
    if !Refused(s, side, ev, k) {
      if side == Upstream && s.upstream.connecting && ev.writable {
        SettledConnect(s, side, ev, k, now);
        RelayIs(s.(lastActivity := now, upstream := s.upstream.(connecting := false)), side, ev, k);
      } else {
        RelayIs(s.(lastActivity := now), side, ev, k);
      }
    }
  }

  /** A socket is armed only for what an event can do: read into room there is, finish the connect, or send
      bytes there are. */
  lemma ArmedIsUseful(s: SessionState, side: Side)
    requires RelayRuns.BothOk(s)
    ensures Interest(s, side).readable ==> !PeerOf(s, side).readEof && |InBuf(s, side).content| < CAP
    ensures Interest(s, side).writable ==>
              (side == Upstream && s.upstream.connecting) || OutBuf(s, side).content != []
    ensures side == Upstream && s.upstream.connecting ==>
              Interest(s, side).writable && !Interest(s, side).readable
  {
  }

  // ----- what is left to do

  /** All that is still to be received or sent, a pending connect included. */
  function Bytes(w: Wire): nat {
    2 * |w.client.left| + |w.c.s.toUpstream.content| + 2 * |w.upstream.left| + |w.c.s.toClient.content|
  }

  function Work(w: Wire): nat {
    Bytes(w) + (if w.c.s.upstream.connecting then 1 else 0)
  }

  /** No side has been given up with bytes of it unread. */
  predicate NoLoss(w: Wire) {
    (w.c.s.client.readEof ==> w.client.left == []) && (w.c.s.upstream.readEof ==> w.upstream.left == [])
  }

  /** One reported event with the kernel's answers. */
  datatype Turn = Turn(ev: Events, k: Kernel, now: int)

  function Given(side: Side, t: Turn): RelayDelivery.Act {
    Relays(RelayRuns.Deliver(side, t.ev, t.k, t.now))
  }

  /** The event reports all that was armed and can happen, no error, and no hangup over unread bytes; each
      call moves at least a byte where there is one. */
  predicate Helpful(w: Wire, side: Side, t: Turn) {
    var src, mask := SourceOf(w, side), RelayRuns.Batch(w.c, side);
    && RelayDelivery.Possible(w, Given(side, t)) && mask.Some?
    && !t.ev.error && !t.ev.hangup && !t.k.connectFailed
    && t.ev.writable == mask.value.writable
    && t.ev.readable == (mask.value.readable && (src.left != [] || src.finished))
    && (t.ev.readHangup ==> src.left == [])
    && (t.ev.readable ==> if src.left != [] then t.k.recv.Received? else t.k.recv.RecvEof?)
    && (t.ev.writable && OutBuf(w.c.s, side).content != [] ==> t.k.send.Accepted?)
  }

  /** What is armed at a side when its event comes: reading only into room, writing only for a reason, which
      other events since the masks were taken have not removed. */
  predicate MaskOk(w: Wire, side: Side) {
    var mask := RelayRuns.Batch(w.c, side);
    mask.Some? ==>
      && (mask.value.readable ==> |InBuf(w.c.s, side).content| < CAP)
      && (side == Upstream && w.c.s.upstream.connecting ==> mask.value.writable && !mask.value.readable)
  }

  /** What a helpful turn can be counted on for: it moves what its mask was armed for. */
  predicate Moves(w: Wire, side: Side) {
    var mask := RelayRuns.Batch(w.c, side);
    mask.Some? && ((mask.value.readable && SourceOf(w, side).left != [])
                   || (mask.value.writable && (OutBuf(w.c.s, side).content != []
                                               || (side == Upstream && w.c.s.upstream.connecting))))
  }

  /** What a turn does to the wire, byte by byte. */
  lemma TurnIs(w: Wire, side: Side, t: Turn)
    requires RelayDelivery.Inv(w) && Helpful(w, side, t) && MaskOk(w, side)
    ensures var o := HandleIo(w.c.s, side, t.ev, t.k, t.now);
            var u := RelayDelivery.Next(w, Given(side, t));
            && u.c.s == o.session && u.c.open == o.keep
            && SourceOf(w, side).left == o.received + SourceOf(u, side).left
            && InBuf(u.c.s, side).content == InBuf(w.c.s, side).content + o.received
            && OutBuf(w.c.s, side).content == o.sent + OutBuf(u.c.s, side).content
            && SourceOf(u, side).said == SourceOf(w, side).said
            && (if side == Client then u.upstream == w.upstream else u.client == w.client)
  {
    hide HandleIo, Interest, KernelFits, RelayRuns.Inv;
    BuffersAre(w);
    RelayRuns.IoHandled(w.c.s, side, t.ev, t.k, t.now);
    ReceivedIs(w.c.s, side, t.ev, t.k, t.now);
    var o := HandleIo(w.c.s, side, t.ev, t.k, t.now);
    var left := SourceOf(w, side).left;
    assert o.received <= left;
    assert left == o.received + left[|o.received|..];
  }

  lemma BuffersAre(w: Wire)
    requires RelayDelivery.Inv(w)
    ensures RelayRuns.BothOk(w.c.s)
  {
  }

  /** A helpful turn gives no side up with bytes unread, and ends the session only with nothing left. */
  lemma TurnLosesNothing(w: Wire, side: Side, t: Turn)
    requires RelayDelivery.Inv(w) && NoLoss(w) && Helpful(w, side, t) && MaskOk(w, side)
    ensures var u := RelayDelivery.Next(w, Given(side, t));
            NoLoss(u) && (u.c.open || Bytes(u) == 0)
  {
    TurnIs(w, side, t);
    BuffersAre(w);
    EventLaw(w.c.s, side, t.ev, t.k, t.now);
    FlagsOf(w.c, RelayRuns.Deliver(side, t.ev, t.k, t.now));
    hide HandleIo, Interest, RelayDelivery.Inv, RelayRuns.Inv, RelayRuns.BothOk, RelayDelivery.Next;
  }

  /** It adds no work, and does some wherever its mask was armed for some. */
  lemma TurnDoesWork(w: Wire, side: Side, t: Turn)
    requires RelayDelivery.Inv(w) && Helpful(w, side, t) && MaskOk(w, side)
    ensures var u := RelayDelivery.Next(w, Given(side, t));
            && Work(u) <= Work(w) && Bytes(u) <= Bytes(w)
            && (Moves(w, side) ==> Work(u) < Work(w))
  {
    TurnIs(w, side, t);
    BuffersAre(w);
    EventLaw(w.c.s, side, t.ev, t.k, t.now);
    hide HandleIo, Interest, RelayDelivery.Inv, RelayRuns.Inv, RelayRuns.BothOk, RelayDelivery.Next, Concludes;
  }

  /** Both, with everything else a turn keeps. */
  lemma TurnWorks(w: Wire, side: Side, t: Turn)
    requires RelayDelivery.Inv(w) && NoLoss(w) && Helpful(w, side, t) && MaskOk(w, side)
    ensures var u := RelayDelivery.Next(w, Given(side, t));
            && RelayDelivery.Inv(u) && NoLoss(u)
            && u.client.said == w.client.said && u.upstream.said == w.upstream.said
            && Work(u) <= Work(w) && Bytes(u) <= Bytes(w)
            && (Moves(w, side) ==> Work(u) < Work(w))
            && (u.c.open || Bytes(u) == 0)
  {
    TurnIs(w, side, t);
    TurnLosesNothing(w, side, t);
    TurnDoesWork(w, side, t);
    hide RelayDelivery.Inv, NoLoss, MaskOk, Moves, Work, Bytes, RelayDelivery.Next, HandleIo, KernelFits;
    NextKeepsInv(w, Given(side, t));
  }

  // ----- rounds of the event loop

  /** One round: the masks are taken, then the event of each side is handled. */
  datatype Round = Round(client: Turn, upstream: Turn)

  function Waited(w: Wire): Wire {
    RelayDelivery.Next(w, Relays(RelayRuns.Wait))
  }

  /** After the client's turn. */
  function Halfway(w: Wire, r: Round): Wire
    requires Helpful(Waited(w), Client, r.client)
  {
    RelayDelivery.Next(Waited(w), Given(Client, r.client))
  }

  predicate HelpfulRound(w: Wire, r: Round) {
    w.c.open ==>
      && Helpful(Waited(w), Client, r.client)
      && (Halfway(w, r).c.open ==> Helpful(Halfway(w, r), Upstream, r.upstream))
  }

  function AfterRound(w: Wire, r: Round): Wire
    requires HelpfulRound(w, r)
  {
    if !w.c.open then w
    else if !Halfway(w, r).c.open then Halfway(w, r)
    else RelayDelivery.Next(Halfway(w, r), Given(Upstream, r.upstream))
  }

  /** A sound session that has lost nothing, and is over only if nothing is left. */
  ghost predicate Sound(w: Wire) {
    RelayDelivery.Inv(w) && NoLoss(w) && (w.c.open || Bytes(w) == 0)
  }

  lemma WaitedIs(w: Wire)
    requires Sound(w) && w.c.open
    ensures var v := Waited(w);
            && Sound(v) && v.c.open && v.c.s == w.c.s && v.client == w.client && v.upstream == w.upstream
            && Bytes(v) == Bytes(w) && Work(v) == Work(w)
            && v.c.batchClient == RelayRuns.Some(Interest(w.c.s, Client))
            && v.c.batchUpstream == RelayRuns.Some(Interest(w.c.s, Upstream))
  {
    hide Interest;
    NextKeepsInv(w, Relays(RelayRuns.Wait));
  }

  lemma WaitedMasks(w: Wire)
    requires Sound(w) && w.c.open
    ensures MaskOk(Waited(w), Client) && MaskOk(Waited(w), Upstream)
    ensures Bytes(w) > 0 ==> Moves(Waited(w), Client) || Moves(Waited(w), Upstream)
  {
    WaitedIs(w);
    BuffersAre(w);
    ArmedIsUseful(w.c.s, Client);
    ArmedIsUseful(w.c.s, Upstream);
    hide Waited, RelayDelivery.Inv;
  }

  /** The client's turn does not spoil what the upstream mask was taken for. */
  lemma UpstreamStillMoves(w: Wire, t: Turn)
    requires RelayDelivery.Inv(w) && Helpful(w, Client, t) && MaskOk(w, Client) && MaskOk(w, Upstream)
    ensures var u := RelayDelivery.Next(w, Given(Client, t));
            MaskOk(u, Upstream) && (Moves(w, Upstream) ==> Moves(u, Upstream))
  {
    TurnIs(w, Client, t);
    BuffersAre(w);
    EventLaw(w.c.s, Client, t.ev, t.k, t.now);
    hide HandleIo, Interest, RelayDelivery.Inv, RelayRuns.Inv, RelayRuns.BothOk;
  }

  /** A helpful round does some of the work, as long as there are bytes left, and loses nothing. */
  lemma RoundWorks(w: Wire, r: Round)
    requires Sound(w) && HelpfulRound(w, r)
    ensures var u := AfterRound(w, r);
            && Sound(u) && u.client.said == w.client.said && u.upstream.said == w.upstream.said
            && Bytes(u) <= Bytes(w) && (Bytes(w) > 0 ==> Work(u) < Work(w) || Bytes(u) == 0)
  {
    hide RelayDelivery.Inv, NoLoss, Bytes, Work, Helpful, MaskOk, Moves, RelayDelivery.Next, Waited;
    if w.c.open {
      WaitedIs(w);
      WaitedMasks(w);
      var v := Waited(w);
      TurnWorks(v, Client, r.client);
      UpstreamStillMoves(v, r.client);
      var h := Halfway(w, r);
      if h.c.open {
        TurnWorks(h, Upstream, r.upstream);
      }
    }
  }

  predicate HelpfulRounds(w: Wire, rs: seq<Round>)
    decreases rs
  {
    rs == [] || (HelpfulRound(w, rs[0]) && HelpfulRounds(AfterRound(w, rs[0]), rs[1..]))
  }

  function AfterRounds(w: Wire, rs: seq<Round>): Wire
    requires HelpfulRounds(w, rs)
    decreases rs
  {
    if rs == [] then w else AfterRounds(AfterRound(w, rs[0]), rs[1..])
  }

  lemma {:induction false} RoundsWork(w: Wire, rs: seq<Round>)
    requires Sound(w) && HelpfulRounds(w, rs) && (Bytes(w) == 0 || |rs| >= Work(w))
    ensures var u := AfterRounds(w, rs);
            && Sound(u) && u.client.said == w.client.said && u.upstream.said == w.upstream.said && Bytes(u) == 0
    decreases rs
  {
    hide Sound, AfterRound, HelpfulRound;
    if rs == [] {
      assert Bytes(w) == 0;
    } else {
      RoundWorks(w, rs[0]);
      RoundsWork(AfterRound(w, rs[0]), rs[1..]);
    }
  }

  lemma NothingLeft(w: Wire)
    requires Sound(w) && Bytes(w) == 0
    ensures w.client.said == w.c.up.sent && w.upstream.said == w.c.down.sent
  {
  }

  /** From any reachable state in which no bytes were lost: when the connect succeeds and every round of
      the event loop moves at least a byte wherever it can, then after a number of rounds bounded by the
      bytes under way everything both peers said has been sent to the other. */
  lemma EverythingArrives(id: nat, now: int, clientFd: int, upstreamFd: int, acts: seq<RelayDelivery.Act>, rs: seq<Round>)
    requires RelayDelivery.PossibleRun(RelayDelivery.Start(id, now, clientFd, upstreamFd), acts)
    requires var w := RelayDelivery.Run(RelayDelivery.Start(id, now, clientFd, upstreamFd), acts);
             w.c.open && NoLoss(w) && HelpfulRounds(w, rs) && |rs| >= Work(w)
    ensures var w := RelayDelivery.Run(RelayDelivery.Start(id, now, clientFd, upstreamFd), acts);
            var u := AfterRounds(w, rs);
            && u.client.said == w.client.said == u.c.up.sent
            && u.upstream.said == w.upstream.said == u.c.down.sent
  {
    hide RelayDelivery.Start, RelayDelivery.Run, RelayDelivery.Inv, HelpfulRounds, AfterRounds, NoLoss, Work, Bytes;
    RelayDelivery.StartInv(id, now, clientFd, upstreamFd);
    RelayDelivery.RunKeepsInv(RelayDelivery.Start(id, now, clientFd, upstreamFd), acts);
    var w := RelayDelivery.Run(RelayDelivery.Start(id, now, clientFd, upstreamFd), acts);
    RoundsWork(w, rs);
    NothingLeft(AfterRounds(w, rs));
  }

  // ----- such rounds are always possible

  /** The least helpful turn: one byte each way. */
  function OneByte(w: Wire, side: Side, mask: Events): Turn {
    var src := SourceOf(w, side);
    Turn(Events(mask.readable && (src.left != [] || src.finished), mask.writable, false, false, false),
         Kernel(false,
                if !mask.readable then RecvAgain
                else if src.left != [] then Received(src.left[..1])
                else if src.finished then RecvEof
                else RecvAgain,
                if OutBuf(w.c.s, side).content != [] then Accepted(1) else SendAgain),
         0)
  }

  lemma OneByteHelps(w: Wire, side: Side)
    requires w.c.open && RelayRuns.Batch(w.c, side).Some? && MaskOk(w, side) && RelayRuns.BothOk(w.c.s)
    ensures Helpful(w, side, OneByte(w, side, RelayRuns.Batch(w.c, side).value))
  {
  }

  /** In every sound session the kernel can be helpful in the next round. */
  lemma HelpIsPossible(w: Wire)
    requires Sound(w)
    ensures exists r :: HelpfulRound(w, r)
  {
    var some := Turn(NO_EVENTS, Kernel(false, RecvAgain, SendAgain), 0);
    if !w.c.open {
      assert HelpfulRound(w, Round(some, some));
    } else {
      hide Helpful, MaskOk, RelayDelivery.Next, Waited, RelayDelivery.Inv, Interest, NoLoss;
      WaitedIs(w);
      WaitedMasks(w);
      var v := Waited(w);
      BuffersAre(v);
      OneByteHelps(v, Client);
      var c := OneByte(v, Client, v.c.batchClient.value);
      TurnWorks(v, Client, c);
      UpstreamStillMoves(v, c);
      var h := Halfway(w, Round(c, some));
      BuffersAre(h);
      UpstreamBatchStays(v, c);
      if h.c.open {
        OneByteHelps(h, Upstream);
        assert HelpfulRound(w, Round(c, OneByte(h, Upstream, h.c.batchUpstream.value)));
      } else {
        assert HelpfulRound(w, Round(c, some));
      }
    }
  }

  lemma UpstreamBatchStays(w: Wire, t: Turn)
    requires Helpful(w, Client, t)
    ensures RelayDelivery.Next(w, Given(Client, t)).c.batchUpstream == w.c.batchUpstream
  {
    hide HandleIo, Interest;
  }
}
