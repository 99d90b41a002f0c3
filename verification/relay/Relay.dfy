/** The buffers and sessions of infinity.c, changed in place. */
module RelayObjects {
  import opened Octets
  import opened RelaySpec

  class Buffer {
    const data: array<byte>
    var start: nat
    var end: nat

    ghost predicate Valid()
      reads this
    {
      data.Length == CAP && start <= end <= CAP && (start == end ==> start == 0)
    }

    ghost function Value(): Buf
      requires Valid()
      reads this, data
    {
      Buf(start, data[start..end])
    }

    constructor ()
      ensures Valid() && fresh(data) && Value() == EMPTY_BUF
    {
      data := new byte[CAP](_ => 0);
      start := 0;
      end := 0;
    }

    /** buffer_compact */
    method Compact()
      requires Valid()
      modifies this, data
      ensures Valid() && Value() == Compacted(old(Value()))
      ensures start == 0
    {
      if start > 0 && start != end {
        ghost var before := data[..];
        var n := end - start;
        var i := 0;
        while i < n
          invariant i <= n && end <= CAP
          invariant start == old(start) && end == old(end)
          invariant forall k :: 0 <= k < i ==> data[k] == before[start + k]
          invariant forall k :: i <= k < CAP ==> data[k] == before[k]
        {
          data[i] := data[start + i];
          i := i + 1;
        }
        assert data[..n] == before[start..end];
        end := end - start;
        start := 0;
      } else if start == end {
        start := 0;
        end := 0;
      }
    }

    /** What recv does to a compacted buffer: the bytes land behind `end`. */
    method Append(d: seq<byte>)
      requires Valid() && start == 0 && 0 < |d| <= CAP - end
      modifies this, data
      ensures Valid() && start == 0 && Value() == Buf(0, old(Value()).content + d)
    {
      ghost var kept := data[..end];
      var i := 0;
      while i < |d|
        invariant i <= |d| && start == 0 && end == old(end)
        invariant data[..end] == kept
        invariant forall k :: 0 <= k < i ==> data[end + k] == d[k]
      {
        data[end + i] := d[i];
        i := i + 1;
      }
      end := end + |d|;
      assert data[..end] == kept + d;
    }

    /** relay_read_into_buffer, with the kernel's answer to recv. */
    method ReadFrom(a: RecvAnswer) returns (moved: Moved, n: nat, ghost bytes: seq<byte>)
      requires Valid() && RecvFits(a, CAP - |Value().content|)
      modifies this, data
      ensures n == |bytes|
      ensures Valid() && Transfer(Value(), moved, bytes) == ReadInto(old(Value()), a)
    {
      Compact();
      n, bytes := 0, [];
      if end == CAP {
        return Nothing, n, bytes;
      }
      match a {
        case Received(d) =>
          Append(d);
          n, bytes := |d|, d;
          moved := Progress;
        case RecvEof => moved := EndOfStream;
        case RecvAgain => moved := Nothing;
        case RecvFailed => moved := Broken;
      }
    }

    /** relay_write_from_buffer, with the kernel's answer to send. */
    method WriteTo(a: SendAnswer) returns (moved: Moved, ghost bytes: seq<byte>)
      requires Valid() && SendFits(a, |Value().content|)
      modifies this
      ensures Valid() && Transfer(Value(), moved, bytes) == WriteFrom(old(Value()), a)
    {
      bytes := [];
      if start == end {
        return Nothing, bytes;
      }
      match a {
        case Accepted(n) =>
          ghost var content := data[start..end];
          bytes := content[..n];
          start := start + n;
          assert data[start..end] == content[n..];
          if start == end {
            start := 0;
            end := 0;
          }
          moved := Progress;
        case SendAgain => moved := Nothing;
        case SendFailed => moved := Broken;
      }
    }
  }

  class Metrics {
    var bytesC2u: nat
    var bytesU2c: nat
    var readErrors: nat
    var writeErrors: nat
    var connectFails: nat

    constructor ()
      ensures bytesC2u == bytesU2c == readErrors == writeErrors == connectFails == 0
    {
      bytesC2u, bytesU2c, readErrors, writeErrors, connectFails := 0, 0, 0, 0, 0;
    }
  }

  class Session {
    const id: nat
    const toUpstream: Buffer
    const toClient: Buffer
    var lastActivity: int
    var client: Peer
    var upstream: Peer
    // what epoll_mod last registered for the two sockets
    var armedClient: Events
    var armedUpstream: Events

    ghost predicate Valid()
      reads this, toUpstream, toClient
    {
      && toUpstream != toClient && toUpstream.data != toClient.data
      && toUpstream.Valid() && toClient.Valid()
    }

    ghost function Value(): SessionState
      requires Valid()
      reads this, toUpstream, toClient, toUpstream.data, toClient.data
    {
      SessionState(id, lastActivity, client, upstream, toUpstream.Value(), toClient.Value())
    }

    constructor (id: nat, now: int, clientFd: int, upstreamFd: int)
      ensures Valid() && Value() == NewSession(id, now, clientFd, upstreamFd)
      ensures fresh(toUpstream) && fresh(toClient) && fresh(toUpstream.data) && fresh(toClient.data)
      ensures armedClient == Interest(Value(), Client) && armedUpstream == Interest(Value(), Upstream)
    {
      this.id := id;
      toUpstream := new Buffer();
      toClient := new Buffer();
      lastActivity := now;
      client := Peer(clientFd, false, false, false);
      upstream := Peer(upstreamFd, false, false, true);
      armedClient := Events(true, false, true, true, true);
      armedUpstream := Events(false, true, true, true, true);
    }

    /** session_events_for_side */
    method EventsFor(side: Side) returns (ev: Events)
      requires Valid()
      ensures ev == Interest(Value(), side)
    {
      ev := Events(false, false, true, true, true);
      if side == Client {
        if !client.readEof && CAP - toUpstream.end > 0 {
          ev := ev.(readable := true);
        }
        if toClient.start != toClient.end {
          ev := ev.(writable := true);
        }
      } else {
        if upstream.connecting {
          ev := ev.(writable := true);
        } else {
          if !upstream.readEof && CAP - toClient.end > 0 {
            ev := ev.(readable := true);
          }
          if toUpstream.start != toUpstream.end {
            ev := ev.(writable := true);
          }
        }
      }
    }

    /** session_refresh_interest */
    method RefreshInterest()
      requires Valid()
      modifies this`armedClient, this`armedUpstream
      ensures client.fd >= 0 ==> armedClient == Interest(Value(), Client)
      ensures upstream.fd >= 0 ==> armedUpstream == Interest(Value(), Upstream)
      ensures client.fd < 0 ==> armedClient == old(armedClient)
      ensures upstream.fd < 0 ==> armedUpstream == old(armedUpstream)
    {
      if client.fd >= 0 {
        armedClient := EventsFor(Client);
      }
      if upstream.fd >= 0 {
        armedUpstream := EventsFor(Upstream);
      }
    }

    /** session_consider_half_close, with peer_shutdown_write on either peer. */
    method ConsiderHalfClose()
      requires Valid()
      modifies this`client, this`upstream
      ensures Value() == HalfClosed(old(Value()))
    {
      if client.readEof && toUpstream.start == toUpstream.end {
        if upstream.fd >= 0 && !upstream.writeShutdown {
          upstream := upstream.(writeShutdown := true);
        }
      }
      if upstream.readEof && toClient.start == toClient.end {
        if client.fd >= 0 && !client.writeShutdown {
          client := client.(writeShutdown := true);
        }
      }
    }

    /** The read half of handle_side_io for the given side. */
    method ReadSide(side: Side, ev: Events, k: Kernel) returns (ok: bool, n: nat, ghost bytes: seq<byte>)
      requires Valid() && RecvFits(k.recv, CAP - |InBuf(Value(), side).content|)
      modifies this`client, this`upstream, toUpstream, toClient, toUpstream.data, toClient.data
      ensures Valid() && (Value(), ok, bytes) == ReadPhase(old(Value()), side, ev, k) && n == |bytes|
    {
      ok, n, bytes := true, 0, [];
      if !ev.readable {
        return;
      }
      var moved;
      if side == Client {
        moved, n, bytes := toUpstream.ReadFrom(k.recv);
        if moved == EndOfStream {
          client := client.(readEof := true);
        }
      } else {
        moved, n, bytes := toClient.ReadFrom(k.recv);
        if moved == EndOfStream {
          upstream := upstream.(readEof := true);
        }
      }
      ok := moved != Broken;
    }

    /** The write half. */
    method WriteSide(side: Side, ev: Events, k: Kernel) returns (ok: bool, ghost bytes: seq<byte>)
      requires Valid() && SendFits(k.send, |OutBuf(Value(), side).content|)
      modifies toUpstream, toClient
      ensures Valid() && (Value(), ok, bytes) == WritePhase(old(Value()), side, ev, k)
    {
      ok, bytes := true, [];
      if !ev.writable || (side == Upstream && upstream.connecting) {
        return;
      }
      var moved;
      if side == Client {
        moved, bytes := toClient.WriteTo(k.send);
      } else {
        moved, bytes := toUpstream.WriteTo(k.send);
      }
      ok := moved != Broken;
    }

    /** session_fully_done */
    method IsFullyDone() returns (done: bool)
      requires Valid()
      ensures done == FullyDone(Value())
    {
      done := client.readEof && upstream.readEof
              && toUpstream.start == toUpstream.end && toClient.start == toClient.end;
    }

    /** What the counters must show after a call with outcome `o`. */
    twostate predicate Counted(g: Metrics, side: Side, y: Tally)
      reads g
    {
      && g.bytesC2u == old(g.bytesC2u) + (if side == Client then y.bytesIn else 0)
      && g.bytesU2c == old(g.bytesU2c) + (if side == Upstream then y.bytesIn else 0)
      && g.readErrors == old(g.readErrors) + y.readErrors
      && g.writeErrors == old(g.writeErrors) + y.writeErrors
      && g.connectFails == old(g.connectFails) + y.connectFails
    }

    /** A reported EPOLLRDHUP counts as end of stream. */
    method NoteHangup(side: Side, ev: Events)
      requires Valid()
      modifies this`client, this`upstream
      ensures Value() == HungUp(old(Value()), side, ev)
    {
      if ev.readHangup {
        if side == Client {
          client := client.(readEof := true);
        } else {
          upstream := upstream.(readEof := true);
        }
      }
    }

    /** The end of handle_side_io: half-close, the test for being done, and the new registrations. */
    method Settle() returns (keep: bool)
      requires Valid()
      modifies this
      ensures Valid() && Value() == HalfClosed(old(Value())) && keep == !FullyDone(Value())
      ensures keep && client.fd >= 0 && upstream.fd >= 0 ==>
                armedClient == Interest(Value(), Client) && armedUpstream == Interest(Value(), Upstream)
    {
      hide HalfClosed, FullyDone, Interest;
      ConsiderHalfClose();
      var done := IsFullyDone();
      if done {
        return false;
      }
      RefreshInterest();
      return true;
    }

    /** The read half with its counters, and the note of a hangup when it went well. */
    method TakeIn(side: Side, ev: Events, k: Kernel, g: Metrics) returns (ok: bool, ghost received: seq<byte>)
      requires Valid() && RecvFits(k.recv, CAP - |InBuf(Value(), side).content|)
      modifies this`client, this`upstream, toUpstream, toClient, toUpstream.data, toClient.data, g
      ensures Valid()
      ensures var (s, fine, bytes) := ReadPhase(old(Value()), side, ev, k);
              && ok == fine && received == bytes
              && Value() == (if ok then HungUp(s, side, ev) else s)
              && Counted(g, side, if ok then Tally(|bytes|, 0, 0, 0) else Tally(0, 1, 0, 0))
    {
      hide ReadPhase, HungUp;
      var n;
      ok, n, received := ReadSide(side, ev, k);
      if !ok {
        g.readErrors := g.readErrors + 1;
        return;
      }
      if side == Client {
        g.bytesC2u := g.bytesC2u + n;
      } else {
        g.bytesU2c := g.bytesU2c + n;
      }
      NoteHangup(side, ev);
    }

    /** The part of handle_side_io after the connect check. */
    method RelaySide(side: Side, ev: Events, k: Kernel, g: Metrics)
      returns (keep: bool, ghost received: seq<byte>, ghost sent: seq<byte>)
      requires Valid() && KernelFits(Value(), side, k)
      modifies this, toUpstream, toClient, toUpstream.data, toClient.data, g
      ensures Valid()
      ensures var o := Relay(old(Value()), side, ev, k);
              && Value() == o.session && keep == o.keep && received == o.received && sent == o.sent
              && Counted(g, side, o.tally)
      ensures keep && client.fd >= 0 && upstream.fd >= 0 ==>
                armedClient == Interest(Value(), Client) && armedUpstream == Interest(Value(), Upstream)
    {
      hide ReadPhase, WritePhase, HalfClosed, FullyDone, Interest, HungUp;
      var ok;
      sent := [];
      ReadKeepsOut(Value(), side, ev, k);
      ok, received := TakeIn(side, ev, k, g);
      if !ok {
        return false, received, sent;
      }
      ok, sent := WriteSide(side, ev, k);
      if !ok {
        g.writeErrors := g.writeErrors + 1;
        return false, received, sent;
      }
      keep := Settle();
    }

    /** handle_side_io */
    method HandleSideIo(side: Side, ev: Events, k: Kernel, now: int, g: Metrics)
      returns (keep: bool, ghost received: seq<byte>, ghost sent: seq<byte>)
      requires Valid() && KernelFits(Value(), side, k)
      modifies this, toUpstream, toClient, toUpstream.data, toClient.data, g
      ensures Valid()
      ensures var o := HandleIo(old(Value()), side, ev, k, now);
              && Value() == o.session && keep == o.keep && received == o.received && sent == o.sent
              && Counted(g, side, o.tally)
      ensures keep && client.fd >= 0 && upstream.fd >= 0 ==>
                armedClient == Interest(Value(), Client) && armedUpstream == Interest(Value(), Upstream)
    {
      hide Relay, Interest;
      received, sent := [], [];
      lastActivity := now;
      if ev.error || ev.hangup {
        return false, received, sent;
      }
      if side == Upstream && upstream.connecting && ev.writable {
        if k.connectFailed {
          g.connectFails := g.connectFails + 1;
          return false, received, sent;
        }
        upstream := upstream.(connecting := false);
      }
      keep, received, sent := RelaySide(side, ev, k, g);
    }
  }

  /** Reading leaves the buffer of the other direction alone, and a failed read brings no bytes. */
  lemma ReadKeepsOut(s: SessionState, side: Side, ev: Events, k: Kernel)
    ensures OutBuf(HungUp(ReadPhase(s, side, ev, k).0, side, ev), side) == OutBuf(s, side)
    ensures !ReadPhase(s, side, ev, k).1 ==> ReadPhase(s, side, ev, k).2 == []
  {
    hide ReadInto;
  }
}
