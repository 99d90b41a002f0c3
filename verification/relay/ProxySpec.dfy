/** The session list, the fd map and the counters of infinity.c, in plain values. */
module ProxySpec {
  import opened RelaySpec

  const FD_CAP: nat := 65536

  /** One entry of the fd map. A session pointer is the session's id. */
  datatype FdCtx = NoCtx | Listener | Ctx(session: nat, side: Side)

  datatype Counters = Counters(
    accepted: nat, rejected: nat, active: nat, closed: nat, connectFails: nat, idleKills: nat,
    bytesC2u: nat, bytesU2c: nat, readErrors: nat, writeErrors: nat)

  datatype Proxy = Proxy(sessions: seq<SessionState>, fds: seq<FdCtx>, nextId: nat, counters: Counters)

  datatype Config = Config(maxConnections: int, idleTimeout: int)

  // ----- the fd map

  /** unregister_fd_ctx */
  function Unregistered(fds: seq<FdCtx>, fd: int): (r: seq<FdCtx>)
    ensures |r| == |fds|
  {
    if 0 <= fd < |fds| then fds[fd := NoCtx] else fds
  }

  /** register_fd_ctx, once its allocation has succeeded. */
  function Registered(fds: seq<FdCtx>, fd: int, c: FdCtx): (r: seq<FdCtx>)
    ensures |r| == |fds|
  {
    if 0 <= fd < |fds| then fds[fd := c] else fds
  }

  // ----- the session list

  /** Where a session is in the list, or the length of the list. */
  function IndexOf(sessions: seq<SessionState>, id: nat): (i: nat)
    ensures i <= |sessions| && (i < |sessions| ==> sessions[i].id == id)
    ensures forall k :: 0 <= k < i ==> sessions[k].id != id
  {
    if sessions == [] then 0 else if sessions[0].id == id then 0 else 1 + IndexOf(sessions[1..], id)
  }

  /** session_unlink */
  function Unlinked(sessions: seq<SessionState>, id: nat): seq<SessionState> {
    var i := IndexOf(sessions, id);
    if i == |sessions| then sessions else sessions[..i] + sessions[i + 1..]
  }

  /** session_destroy */
  function Destroyed(p: Proxy, s: SessionState): Proxy {
    var f1 := if s.client.fd >= 0 then Unregistered(p.fds, s.client.fd) else p.fds;
    var f2 := if s.upstream.fd >= 0 then Unregistered(f1, s.upstream.fd) else f1;
    p.(fds := f2, sessions := Unlinked(p.sessions, s.id),
       counters := p.counters.(closed := p.counters.closed + 1,
                               active := if p.counters.active > 0 then p.counters.active - 1 else 0))
  }

  // ----- accepting

  /** What the system answers during one turn of the accept loop: the accepted descriptor, whether it
      could be made non-blocking, whether the session could be allocated, the descriptor of the
      upstream socket (negative on failure), and whether both map entries and both epoll
      registrations succeeded. */
  datatype AcceptAnswer = AcceptAnswer(
    clientFd: int, nonblocking: bool, created: bool, upstreamFd: int,
    clientCtx: bool, upstreamCtx: bool, polled: bool)

  /** A session as session_create makes it, with the accepted descriptor filled in. */
  function Created(id: nat, now: int, clientFd: int): SessionState {
    SessionState(id, now, Peer(clientFd, false, false, false), Peer(-1, false, false, false), EMPTY_BUF, EMPTY_BUF)
  }

  function AcceptOne(p: Proxy, cfg: Config, a: AcceptAnswer, now: int): Proxy {
    if p.counters.active >= cfg.maxConnections then
      p.(counters := p.counters.(rejected := p.counters.rejected + 1))
    else if !a.nonblocking || !a.created then p
    else
      var s := Created(p.nextId, now, a.clientFd);
      var p1 := p.(sessions := [s] + p.sessions, nextId := p.nextId + 1,
                   counters := p.counters.(active := p.counters.active + 1));
      if a.upstreamFd < 0 then
        Destroyed(p1.(counters := p1.counters.(connectFails := p1.counters.connectFails + 1)), s)
      else
        var s2 := NewSession(p.nextId, now, a.clientFd, a.upstreamFd);
        var p2 := p1.(sessions := [s2] + p.sessions);
        if !a.clientCtx || a.clientFd < 0 || a.clientFd >= FD_CAP then Destroyed(p2, s2)
        else
          var p3 := p2.(fds := Registered(p2.fds, a.clientFd, Ctx(s2.id, Client)));
          if !a.upstreamCtx || a.upstreamFd >= FD_CAP then Destroyed(p3, s2)
          else
            var p4 := p3.(fds := Registered(p3.fds, a.upstreamFd, Ctx(s2.id, Upstream)));
            if !a.polled then Destroyed(p4, s2)
            else p4.(counters := p4.counters.(accepted := p4.counters.accepted + 1))
  }

  function AcceptAll(p: Proxy, cfg: Config, answers: seq<AcceptAnswer>, now: int): Proxy
    decreases answers
  {
    if answers == [] then p else AcceptAll(AcceptOne(p, cfg, answers[0], now), cfg, answers[1..], now)
  }

  // ----- one event, the idle sweep, shutdown

  function Counting(c: Counters, side: Side, y: Tally): Counters {
    c.(bytesC2u := c.bytesC2u + (if side == Client then y.bytesIn else 0),
       bytesU2c := c.bytesU2c + (if side == Upstream then y.bytesIn else 0),
       readErrors := c.readErrors + y.readErrors, writeErrors := c.writeErrors + y.writeErrors,
       connectFails := c.connectFails + y.connectFails)
  }

  /** The session an event on `fd` is for, as an index; the list length when it is for none. */
  function Target(p: Proxy, fd: int): (i: nat)
    ensures i <= |p.sessions|
  {
    if 0 <= fd < |p.fds| && p.fds[fd].Ctx? then IndexOf(p.sessions, p.fds[fd].session) else |p.sessions|
  }

  /** The body of the event loop for a descriptor that belongs to a session. */
  function Dispatched(p: Proxy, fd: int, ev: Events, k: Kernel, now: int): Proxy
    requires Target(p, fd) < |p.sessions| ==> KernelFits(p.sessions[Target(p, fd)], p.fds[fd].side, k)
  {
    var i := Target(p, fd);
    if i == |p.sessions| then p else
    var side := p.fds[fd].side;
    var o := HandleIo(p.sessions[i], side, ev, k, now);
    var p1 := p.(sessions := p.sessions[i := o.session], counters := Counting(p.counters, side, o.tally));
    if o.keep then p1 else Destroyed(p1, o.session)
  }

  predicate Idle(s: SessionState, cfg: Config, now: int) {
    now - s.lastActivity > cfg.idleTimeout
  }

  /** enforce_idle_timeouts, from the list element `todo[0]` on. */
  function Swept(p: Proxy, todo: seq<SessionState>, cfg: Config, now: int): Proxy
    decreases todo
  {
    if todo == [] then p
    else if Idle(todo[0], cfg, now) then
      Swept(Destroyed(p.(counters := p.counters.(idleKills := p.counters.idleKills + 1)), todo[0]), todo[1..], cfg, now)
    else Swept(p, todo[1..], cfg, now)
  }

  /** close_all_sessions */
  function AllClosed(p: Proxy, todo: seq<SessionState>): Proxy
    decreases todo
  {
    if todo == [] then p else AllClosed(Destroyed(p, todo[0]), todo[1..])
  }

  /** The proxy when the event loop starts: only the listener is registered. */
  function Started(listenFd: int): Proxy
    requires 0 <= listenFd < FD_CAP
  {
    Proxy([], seq(FD_CAP, i => if i == listenFd then Listener else NoCtx), 1, Counters(0, 0, 0, 0, 0, 0, 0, 0, 0, 0))
  }
}
