/** The globals of infinity.c (session list, fd map, counters), changed in place. */
module ProxyObjects {
  import opened RelaySpec
  import opened ProxySpec

  class Server {
    var sessions: seq<SessionState>      // the linked list, head first
    const fdMap: array<FdCtx>
    var nextId: nat
    var counters: Counters

    ghost predicate Valid()
      reads this
    {
      fdMap.Length == FD_CAP
    }

    ghost function Value(): Proxy
      reads this, fdMap
    {
      Proxy(sessions, fdMap[..], nextId, counters)
    }

    constructor (listenFd: int)
      requires 0 <= listenFd < FD_CAP
      ensures Valid() && fresh(fdMap) && Value() == Started(listenFd)
    {
      sessions := [];
      fdMap := new FdCtx[FD_CAP](i => if i == listenFd then Listener else NoCtx);
      nextId := 1;
      counters := Counters(0, 0, 0, 0, 0, 0, 0, 0, 0, 0);
    }

    /** unregister_fd_ctx */
    method UnregisterFd(fd: int)
      requires Valid()
      modifies fdMap
      ensures fdMap[..] == Unregistered(old(fdMap[..]), fd)
    {
      if fd >= 0 && fd < FD_CAP {
        fdMap[fd] := NoCtx;
      }
    }

    /** register_fd_ctx; `memory` says whether its allocation succeeds. */
    method RegisterFd(fd: int, session: nat, side: Side, memory: bool) returns (ok: bool)
      requires Valid()
      modifies fdMap
      ensures ok == (0 <= fd < FD_CAP && memory)
      ensures fdMap[..] == if ok then Registered(old(fdMap[..]), fd, Ctx(session, side)) else old(fdMap[..])
    {
      if fd < 0 || fd >= FD_CAP {
        return false;
      }
      if !memory {
        return false;
      }
      fdMap[fd] := Ctx(session, side);
      return true;
    }

    /** session_unlink: the walk along the list to the session. */
    method Unlink(id: nat)
      modifies this`sessions
      ensures sessions == Unlinked(old(sessions), id)
    {
      var i := 0;
      while i < |sessions| && sessions[i].id != id
        invariant i <= |sessions| && sessions == old(sessions)
        invariant forall k :: 0 <= k < i ==> sessions[k].id != id
      {
        i := i + 1;
      }
      if i < |sessions| {
        sessions := sessions[..i] + sessions[i + 1..];
      }
    }

    /** session_destroy */
    method Destroy(s: SessionState)
      requires Valid()
      modifies this, fdMap
      ensures Valid() && Value() == Destroyed(old(Value()), s)
    {
      if s.client.fd >= 0 {
        UnregisterFd(s.client.fd);
      }
      if s.upstream.fd >= 0 {
        UnregisterFd(s.upstream.fd);
      }
      Unlink(s.id);
      counters := counters.(closed := counters.closed + 1);
      if counters.active > 0 {
        counters := counters.(active := counters.active - 1);
      }
    }

    /** session_create */
    method Create(now: int, clientFd: int) returns (s: SessionState)
      modifies this
      ensures s == Created(old(nextId), now, clientFd)
      ensures var p := old(Value());
              Value() == p.(sessions := [s] + p.sessions, nextId := p.nextId + 1,
                            counters := p.counters.(active := p.counters.active + 1))
    {
      s := SessionState(nextId, now, Peer(clientFd, false, false, false), Peer(-1, false, false, false),
                        EMPTY_BUF, EMPTY_BUF);
      nextId := nextId + 1;
      sessions := [s] + sessions;
      counters := counters.(active := counters.active + 1);
    }

    /** One turn of the loop in handle_listener_accept. */
    method AcceptTurn(cfg: Config, a: AcceptAnswer, now: int)
      requires Valid()
      modifies this, fdMap
      ensures Valid() && Value() == AcceptOne(old(Value()), cfg, a, now)
    {
      hide Destroyed, Registered;
      if counters.active >= cfg.maxConnections {
        counters := counters.(rejected := counters.rejected + 1);
        return;
      }
      if !a.nonblocking {
        return;
      }
      if !a.created {
        return;
      }
      ghost var list := sessions;
      var s := Create(now, a.clientFd);
      if a.upstreamFd < 0 {
        counters := counters.(connectFails := counters.connectFails + 1);
        Destroy(s);
        return;
      }
      s := s.(upstream := Peer(a.upstreamFd, false, false, true));
      sessions := [s] + sessions[1..];
      assert sessions == [s] + list;
      var ok := RegisterFd(a.clientFd, s.id, Client, a.clientCtx);
      ok := Continue(ok, a, s);
      if !ok {
        Destroy(s);
        return;
      }
      counters := counters.(accepted := counters.accepted + 1);
    }

    /** The second map entry and the epoll registrations, tried only after the first entry. */
    method Continue(first: bool, a: AcceptAnswer, s: SessionState) returns (ok: bool)
      requires Valid() && a.upstreamFd >= 0
      modifies fdMap
      ensures ok == (first && a.upstreamCtx && a.upstreamFd < FD_CAP && a.polled)
      ensures fdMap[..] == if first && a.upstreamCtx && a.upstreamFd < FD_CAP
                           then Registered(old(fdMap[..]), a.upstreamFd, Ctx(s.id, Upstream)) else old(fdMap[..])
    {
      if !first {
        return false;
      }
      ok := RegisterFd(a.upstreamFd, s.id, Upstream, a.upstreamCtx);
      ok := ok && a.polled;
    }

    /** handle_listener_accept */
    method Accept(cfg: Config, answers: seq<AcceptAnswer>, now: int)
      requires Valid()
      modifies this, fdMap
      ensures Valid() && Value() == AcceptAll(old(Value()), cfg, answers, now)
    {
      hide AcceptOne;
      var i := 0;
      assert answers[0..] == answers;
      while i < |answers|
        invariant i <= |answers| && Valid()
        invariant AcceptAll(Value(), cfg, answers[i..], now) == AcceptAll(old(Value()), cfg, answers, now)
      {
        assert answers[i..][1..] == answers[i + 1..];
        AcceptTurn(cfg, answers[i], now);
        i := i + 1;
      }
    }

    /** The body of the event loop for one reported descriptor that is not the listener's. */
    method HandleEvent(fd: int, ev: Events, k: Kernel, now: int)
      requires Valid()
      requires Target(Value(), fd) < |sessions| ==> KernelFits(sessions[Target(Value(), fd)], fdMap[fd].side, k)
      modifies this, fdMap
      ensures Valid() && Value() == Dispatched(old(Value()), fd, ev, k, now)
    {
      hide HandleIo, Destroyed, KernelFits, IndexOf;
      if fd < 0 || fd >= FD_CAP || !fdMap[fd].Ctx? {
        return;
      }
      var i := IndexOf(sessions, fdMap[fd].session);
      if i == |sessions| {
        return;
      }
      var side := fdMap[fd].side;
      var o := HandleIo(sessions[i], side, ev, k, now);
      sessions := sessions[i := o.session];
      counters := Counting(counters, side, o.tally);
      if !o.keep {
        Destroy(o.session);
      }
    }

    /** enforce_idle_timeouts; `todo` plays the saved next pointers. */
    method EnforceIdleTimeouts(cfg: Config, now: int)
      requires Valid()
      modifies this, fdMap
      ensures Valid() && Value() == Swept(old(Value()), old(sessions), cfg, now)
    {
      hide Destroyed, Idle;
      var todo := sessions;
      while todo != []
        invariant Valid()
        invariant Swept(Value(), todo, cfg, now) == Swept(old(Value()), old(sessions), cfg, now)
        decreases |todo|
      {
        var s := todo[0];
        if Idle(s, cfg, now) {
          counters := counters.(idleKills := counters.idleKills + 1);
          Destroy(s);
        }
        todo := todo[1..];
      }
    }

    /** close_all_sessions */
    method CloseAll()
      requires Valid()
      modifies this, fdMap
      ensures Valid() && Value() == AllClosed(old(Value()), old(sessions))
    {
      hide Destroyed;
      var todo := sessions;
      while todo != []
        invariant Valid()
        invariant AllClosed(Value(), todo) == AllClosed(old(Value()), old(sessions))
        decreases |todo|
      {
        Destroy(todo[0]);
        todo := todo[1..];
      }
    }
  }
}
