/** Session bookkeeping over whole runs of the proxy. */
module ProxyRuns {
  import opened RelaySpec
  import opened RelayRuns
  import opened ProxySpec

  /** The map entry `c` at `fd` is the one the session expects there. */
  predicate Owns(s: SessionState, fd: int, c: FdCtx) {
    c.Ctx? && s.id == c.session && PeerOf(s, c.side).fd == fd
  }

  /** Both descriptors of a session are in the map, under the session and its sides. */
  predicate Mapped(fds: seq<FdCtx>, s: SessionState) {
    && 0 <= s.client.fd < |fds| && fds[s.client.fd] == Ctx(s.id, Client)
    && 0 <= s.upstream.fd < |fds| && fds[s.upstream.fd] == Ctx(s.id, Upstream)
  }

  predicate IdsDistinct(sessions: seq<SessionState>, bound: nat) {
    && (forall i, j :: 0 <= i < j < |sessions| ==> sessions[i].id != sessions[j].id)
    && (forall i :: 0 <= i < |sessions| ==> 0 < sessions[i].id < bound)
  }

  predicate AllMapped(fds: seq<FdCtx>, sessions: seq<SessionState>) {
    forall i :: 0 <= i < |sessions| ==> Mapped(fds, sessions[i])
  }

  /** Every side entry of the map belongs to a listed session whose peer on that side has that fd. */
  ghost predicate AllOwned(fds: seq<FdCtx>, sessions: seq<SessionState>) {
    forall fd :: 0 <= fd < |fds| && fds[fd].Ctx? ==> exists i :: 0 <= i < |sessions| && Owns(sessions[i], fd, fds[fd])
  }

  predicate OneListener(fds: seq<FdCtx>, listenFd: int) {
    && |fds| == FD_CAP && 0 <= listenFd < FD_CAP
    && forall fd :: 0 <= fd < FD_CAP ==> (fds[fd] == Listener <==> fd == listenFd)
  }

  /** active is the length of the list, and every id handed out is either active or closed. */
  predicate Counted(p: Proxy) {
    && p.counters.active == |p.sessions|
    && p.counters.closed + p.counters.active == p.nextId - 1
  }

  predicate AllBuffersOk(sessions: seq<SessionState>) {
    forall i :: 0 <= i < |sessions| ==> BothOk(sessions[i])
  }

  ghost predicate Inv(p: Proxy, listenFd: int) {
    && OneListener(p.fds, listenFd) && IdsDistinct(p.sessions, p.nextId)
    && AllMapped(p.fds, p.sessions) && AllOwned(p.fds, p.sessions)
    && Counted(p) && AllBuffersOk(p.sessions)
  }

  /** A descriptor the system may hand out: not the listener's, and not one in use. */
  predicate Unused(p: Proxy, listenFd: int, fd: int) {
    && fd >= 0 && fd != listenFd
    && forall i :: 0 <= i < |p.sessions| ==> p.sessions[i].client.fd != fd && p.sessions[i].upstream.fd != fd
  }

  /** accept hands out an unused descriptor, and connect another one or a failure. */
  predicate AnswerFits(p: Proxy, listenFd: int, a: AcceptAnswer) {
    && Unused(p, listenFd, a.clientFd)
    && (a.upstreamFd >= 0 ==> Unused(p, listenFd, a.upstreamFd) && a.upstreamFd != a.clientFd)
  }

  // ----- destroying

  lemma UnusedIsFree(p: Proxy, listenFd: int, fd: int)
    requires Inv(p, listenFd) && Unused(p, listenFd, fd)
    ensures fd < FD_CAP ==> p.fds[fd] == NoCtx
  {
    if fd < FD_CAP && p.fds[fd].Ctx? {
      var i :| 0 <= i < |p.sessions| && Owns(p.sessions[i], fd, p.fds[fd]);
    }
  }

  lemma DistinctAt(sessions: seq<SessionState>, k: nat, i: nat, bound: nat)
    requires IdsDistinct(sessions, bound) && k < |sessions| && i < |sessions|
    ensures sessions[k].id == sessions[i].id ==> k == i
  {
    assert k < i ==> sessions[k].id != sessions[i].id;
    assert i < k ==> sessions[i].id != sessions[k].id;
  }

  lemma IndexOfIs(sessions: seq<SessionState>, i: nat, bound: nat)
    requires IdsDistinct(sessions, bound) && i < |sessions|
    ensures IndexOf(sessions, sessions[i].id) == i
    ensures Unlinked(sessions, sessions[i].id) == sessions[..i] + sessions[i + 1..]
  {
    var k := IndexOf(sessions, sessions[i].id);
    hide IdsDistinct;
    DistinctAt(sessions, k, i, bound);
  }

  /** The map without the two entries of one session. */
  function Cleared(fds: seq<FdCtx>, s: SessionState): (r: seq<FdCtx>)
    ensures |r| == |fds|
  {
    Unregistered(Unregistered(fds, s.client.fd), s.upstream.fd)
  }

  lemma ClearedAt(fds: seq<FdCtx>, s: SessionState, fd: int)
    requires 0 <= fd < |fds|
    ensures Cleared(fds, s)[fd] == if fd == s.client.fd || fd == s.upstream.fd then NoCtx else fds[fd]
  {
  }

  /** The list without element `i`. */
  function Without(sessions: seq<SessionState>, i: nat): (r: seq<SessionState>)
    requires i < |sessions|
    ensures |r| == |sessions| - 1
    ensures forall j :: 0 <= j < |r| ==> r[j] == sessions[if j < i then j else j + 1]
  {
    sessions[..i] + sessions[i + 1..]
  }

  lemma MappedApart(fds: seq<FdCtx>, s: SessionState, t: SessionState)
    requires Mapped(fds, s) && Mapped(fds, t) && s.id != t.id
    ensures Mapped(Cleared(fds, s), t)
  {
    hide Cleared;
    ClearedAt(fds, s, t.client.fd);
    ClearedAt(fds, s, t.upstream.fd);
  }

  lemma DropKeepsMapped(fds: seq<FdCtx>, sessions: seq<SessionState>, i: nat, bound: nat)
    requires IdsDistinct(sessions, bound) && i < |sessions| && AllMapped(fds, sessions)
    ensures AllMapped(Cleared(fds, sessions[i]), Without(sessions, i))
    ensures IdsDistinct(Without(sessions, i), bound)
  {
    hide Cleared, Mapped, Without;
    var rest := Without(sessions, i);
    forall j | 0 <= j < |rest| ensures Mapped(Cleared(fds, sessions[i]), rest[j]) {
      var k := if j < i then j else j + 1;
      assert sessions[k].id != sessions[i].id;
      MappedApart(fds, sessions[i], sessions[k]);
    }
  }

  lemma DropKeepsOwned(fds: seq<FdCtx>, sessions: seq<SessionState>, i: nat)
    requires i < |sessions| && AllOwned(fds, sessions)
    ensures AllOwned(Cleared(fds, sessions[i]), Without(sessions, i))
  {
    hide Cleared, Owns, Without;
    var s, rest := sessions[i], Without(sessions, i);
    var f := Cleared(fds, s);
    forall fd | 0 <= fd < |f| && f[fd].Ctx? ensures exists j :: 0 <= j < |rest| && Owns(rest[j], fd, f[fd]) {
      ClearedAt(fds, s, fd);
      var k :| 0 <= k < |sessions| && Owns(sessions[k], fd, fds[fd]);
      OwnsFacts(sessions[k], fd, fds[fd]);
      assert rest[if k < i then k else k - 1] == sessions[k];
    }
  }

  lemma DropKeepsListener(fds: seq<FdCtx>, s: SessionState, listenFd: int)
    requires OneListener(fds, listenFd) && Mapped(fds, s)
    ensures OneListener(Cleared(fds, s), listenFd)
  {
    hide Cleared;
    forall fd | 0 <= fd < FD_CAP ensures Cleared(fds, s)[fd] == Listener <==> fd == listenFd {
      ClearedAt(fds, s, fd);
    }
  }

  lemma OwnsFacts(s: SessionState, fd: int, c: FdCtx)
    ensures Owns(s, fd, c) ==> fd == s.client.fd || fd == s.upstream.fd
  {
  }

  lemma DropKeepsBuffers(sessions: seq<SessionState>, i: nat)
    requires AllBuffersOk(sessions) && i < |sessions|
    ensures AllBuffersOk(Without(sessions, i))
  {
    hide BothOk, Without;
  }

  /** What destroying a listed session comes to. */
  lemma DestroyedIs(p: Proxy, i: nat)
    requires IdsDistinct(p.sessions, p.nextId) && i < |p.sessions| && Mapped(p.fds, p.sessions[i]) && Counted(p)
    ensures Destroyed(p, p.sessions[i])
            == p.(fds := Cleared(p.fds, p.sessions[i]), sessions := Without(p.sessions, i),
                  counters := p.counters.(closed := p.counters.closed + 1, active := p.counters.active - 1))
    ensures Counted(Destroyed(p, p.sessions[i]))
  {
    hide IdsDistinct;
    IndexOfIs(p.sessions, i, p.nextId);
  }

  /** Destroying a listed session keeps the books. */
  lemma DestroyKeepsInv(p: Proxy, i: nat, listenFd: int)
    requires Inv(p, listenFd) && i < |p.sessions|
    ensures Inv(Destroyed(p, p.sessions[i]), listenFd)
    ensures Destroyed(p, p.sessions[i]).sessions == p.sessions[..i] + p.sessions[i + 1..]
  {
    assert Mapped(p.fds, p.sessions[i]);
    hide AllMapped, AllOwned, OneListener, IdsDistinct, Mapped, Cleared, Counted, AllBuffersOk, Destroyed;
    DestroyedIs(p, i);
    DropKeepsMapped(p.fds, p.sessions, i, p.nextId);
    DropKeepsOwned(p.fds, p.sessions, i);
    DropKeepsListener(p.fds, p.sessions[i], listenFd);
    DropKeepsBuffers(p.sessions, i);
  }

  // ----- accepting

  /** A half-made session that is destroyed again leaves only its used-up id behind. */
  lemma Undone(p: Proxy, fds: seq<FdCtx>, s: SessionState, listenFd: int, fails: nat)
    requires Inv(p, listenFd) && s.id == p.nextId
    requires Unused(p, listenFd, s.client.fd)
    requires s.upstream.fd == -1 || (Unused(p, listenFd, s.upstream.fd) && s.upstream.fd != s.client.fd)
    requires |fds| == FD_CAP
    requires forall fd :: 0 <= fd < FD_CAP && fd != s.client.fd && fd != s.upstream.fd ==> fds[fd] == p.fds[fd]
    ensures var q := Proxy([s] + p.sessions, fds, p.nextId + 1,
                           p.counters.(active := p.counters.active + 1, connectFails := fails));
            Destroyed(q, s) == p.(nextId := p.nextId + 1,
                                  counters := p.counters.(closed := p.counters.closed + 1, connectFails := fails))
  {
    UnusedIsFree(p, listenFd, s.client.fd);
    if s.upstream.fd >= 0 {
      UnusedIsFree(p, listenFd, s.upstream.fd);
    }
    UnlinkHead(p.sessions, s);
    RestoreMap(p.fds, fds, s);
    hide Inv, Unused, Unregistered, Unlinked;
  }

  lemma UnlinkHead(sessions: seq<SessionState>, s: SessionState)
    ensures Unlinked([s] + sessions, s.id) == sessions
  {
  }

  lemma RestoreMap(before: seq<FdCtx>, fds: seq<FdCtx>, s: SessionState)
    requires |before| == |fds| == FD_CAP && s.client.fd >= 0
    requires s.client.fd < FD_CAP ==> before[s.client.fd] == NoCtx
    requires 0 <= s.upstream.fd < FD_CAP ==> before[s.upstream.fd] == NoCtx
    requires forall fd :: 0 <= fd < FD_CAP && fd != s.client.fd && fd != s.upstream.fd ==> fds[fd] == before[fd]
    ensures var f1 := Unregistered(fds, s.client.fd);
            (if s.upstream.fd >= 0 then Unregistered(f1, s.upstream.fd) else f1) == before
  {
  }

  /** A used-up id keeps the books. */
  lemma SkippedIdKeepsInv(p: Proxy, listenFd: int, fails: nat)
    requires Inv(p, listenFd)
    ensures Inv(p.(nextId := p.nextId + 1,
                   counters := p.counters.(closed := p.counters.closed + 1, connectFails := fails)), listenFd)
  {
    hide AllMapped, AllOwned, OneListener, AllBuffersOk;
  }

  /** The map with both entries of a new session. */
  function Entered(fds: seq<FdCtx>, s: SessionState): (r: seq<FdCtx>)
    requires 0 <= s.client.fd < |fds| && 0 <= s.upstream.fd < |fds| && s.upstream.fd != s.client.fd
    ensures |r| == |fds|
    ensures forall fd :: 0 <= fd < |r| ==>
              r[fd] == if fd == s.client.fd then Ctx(s.id, Client)
                       else if fd == s.upstream.fd then Ctx(s.id, Upstream) else fds[fd]
  {
    fds[s.client.fd := Ctx(s.id, Client)][s.upstream.fd := Ctx(s.id, Upstream)]
  }

  /** A session whose two descriptors are free in the map. */
  predicate Placeable(fds: seq<FdCtx>, s: SessionState) {
    && 0 <= s.client.fd < |fds| && 0 <= s.upstream.fd < |fds| && s.upstream.fd != s.client.fd
    && fds[s.client.fd] == NoCtx && fds[s.upstream.fd] == NoCtx
  }

  lemma NewKeepsMapped(fds: seq<FdCtx>, sessions: seq<SessionState>, s: SessionState)
    requires AllMapped(fds, sessions) && Placeable(fds, s)
    ensures AllMapped(Entered(fds, s), [s] + sessions)
  {
    hide Entered;
    var l := [s] + sessions;
    forall j | 0 <= j < |l| ensures Mapped(Entered(fds, s), l[j]) {
      if j > 0 {
        assert l[j] == sessions[j - 1];
        assert Mapped(fds, sessions[j - 1]);
      }
    }
  }

  lemma NewKeepsOwned(fds: seq<FdCtx>, sessions: seq<SessionState>, s: SessionState)
    requires AllOwned(fds, sessions) && Placeable(fds, s)
    ensures AllOwned(Entered(fds, s), [s] + sessions)
  {
    hide Entered, Owns;
    var l, f := [s] + sessions, Entered(fds, s);
    forall fd | 0 <= fd < |f| && f[fd].Ctx? ensures exists j :: 0 <= j < |l| && Owns(l[j], fd, f[fd]) {
      if fd == s.client.fd || fd == s.upstream.fd {
        OwnsNew(s);
        assert l[0] == s;
      } else {
        var k :| 0 <= k < |sessions| && Owns(sessions[k], fd, fds[fd]);
        assert l[k + 1] == sessions[k];
      }
    }
  }

  lemma NewKeepsListener(fds: seq<FdCtx>, s: SessionState, listenFd: int)
    requires OneListener(fds, listenFd) && Placeable(fds, s)
    ensures OneListener(Entered(fds, s), listenFd)
  {
    hide Entered;
  }

  lemma NewKeepsList(sessions: seq<SessionState>, s: SessionState, bound: nat)
    requires IdsDistinct(sessions, bound) && s.id == bound > 0 && AllBuffersOk(sessions) && BothOk(s)
    ensures IdsDistinct([s] + sessions, bound + 1) && AllBuffersOk([s] + sessions)
  {
    hide BothOk;
    var l := [s] + sessions;
    forall i, j | 0 <= i < j < |l| ensures l[i].id != l[j].id {
      assert l[j] == sessions[j - 1];
    }
  }

  lemma NewKeepsInv(p: Proxy, listenFd: int, s: SessionState, accepted: nat)
    requires Inv(p, listenFd) && s.id == p.nextId && BothOk(s)
    requires Unused(p, listenFd, s.client.fd) && Unused(p, listenFd, s.upstream.fd) && s.upstream.fd != s.client.fd
    requires s.client.fd < |p.fds| == FD_CAP && s.upstream.fd < FD_CAP
    ensures Inv(Proxy([s] + p.sessions, Entered(p.fds, s), p.nextId + 1,
                      p.counters.(active := p.counters.active + 1, accepted := accepted)), listenFd)
  {
    UnusedIsFree(p, listenFd, s.client.fd);
    UnusedIsFree(p, listenFd, s.upstream.fd);
    hide AllMapped, AllOwned, OneListener, IdsDistinct, Entered, AllBuffersOk, BothOk;
    NewKeepsMapped(p.fds, p.sessions, s);
    NewKeepsOwned(p.fds, p.sessions, s);
    NewKeepsListener(p.fds, s, listenFd);
    NewKeepsList(p.sessions, s, p.nextId);
  }

  lemma OwnsNew(s: SessionState)
    ensures Owns(s, s.client.fd, Ctx(s.id, Client)) && Owns(s, s.upstream.fd, Ctx(s.id, Upstream))
  {
  }

  /** One turn of the accept loop, whatever fails in it, keeps the books. */
  lemma AcceptKeepsInv(p: Proxy, cfg: Config, a: AcceptAnswer, now: int, listenFd: int)
    requires Inv(p, listenFd) && AnswerFits(p, listenFd, a)
    ensures Inv(AcceptOne(p, cfg, a, now), listenFd)
    ensures AcceptOne(p, cfg, a, now).counters.active
            <= if p.counters.active >= cfg.maxConnections then p.counters.active else p.counters.active + 1
  {
    assert |p.fds| == FD_CAP;
    hide Inv, Destroyed, Unused;
    if p.counters.active >= cfg.maxConnections {
      RejectKeepsInv(p, listenFd);
    } else if a.nonblocking && a.created {
      SkippedIdKeepsInv(p, listenFd, p.counters.connectFails + 1);
      SkippedIdKeepsInv(p, listenFd, p.counters.connectFails);
      if a.upstreamFd < 0 {
        Undone(p, p.fds, Created(p.nextId, now, a.clientFd), listenFd, p.counters.connectFails + 1);
      } else {
        AcceptConnected(p, cfg, a, now, listenFd);
      }
    }
  }

  lemma RejectKeepsInv(p: Proxy, listenFd: int)
    requires Inv(p, listenFd)
    ensures Inv(p.(counters := p.counters.(rejected := p.counters.rejected + 1)), listenFd)
  {
    hide AllMapped, AllOwned, OneListener, IdsDistinct, AllBuffersOk;
  }

  lemma AcceptConnected(p: Proxy, cfg: Config, a: AcceptAnswer, now: int, listenFd: int)
    requires Inv(p, listenFd) && AnswerFits(p, listenFd, a) && |p.fds| == FD_CAP
    requires p.counters.active < cfg.maxConnections && a.nonblocking && a.created && a.upstreamFd >= 0
    ensures Inv(AcceptOne(p, cfg, a, now), listenFd)
    ensures AcceptOne(p, cfg, a, now).counters.active <= p.counters.active + 1
  {
    hide Inv, Destroyed, Unused;
    var s := NewSession(p.nextId, now, a.clientFd, a.upstreamFd);
    var n := p.counters.connectFails;
    SkippedIdKeepsInv(p, listenFd, n);
    Undone(p, p.fds, s, listenFd, n);
    UnusedIsNatural(p, listenFd, a);
    if a.clientCtx && a.clientFd < FD_CAP {
      var f1 := Registered(p.fds, a.clientFd, Ctx(s.id, Client));
      Undone(p, f1, s, listenFd, n);
      if a.upstreamCtx && a.upstreamFd < FD_CAP {
        var f2 := Registered(f1, a.upstreamFd, Ctx(s.id, Upstream));
        Undone(p, f2, s, listenFd, n);
        NewKeepsInv(p, listenFd, s, p.counters.accepted + 1);
      }
    }
  }

  /** Everything that has to go right for a connection to be taken on. */
  predicate TakenOn(p: Proxy, cfg: Config, a: AcceptAnswer) {
    && p.counters.active < cfg.maxConnections && a.nonblocking && a.created && a.upstreamFd >= 0
    && a.clientCtx && a.clientFd < FD_CAP && a.upstreamCtx && a.upstreamFd < FD_CAP && a.polled
  }

  /** A turn of the accept loop adds one mapped session exactly when nothing goes wrong in it; in every
      other case list and map are as before. */
  lemma AcceptEffect(p: Proxy, cfg: Config, a: AcceptAnswer, now: int, listenFd: int)
    requires Inv(p, listenFd) && AnswerFits(p, listenFd, a) && |p.fds| == FD_CAP
    ensures var q := AcceptOne(p, cfg, a, now);
            var s := NewSession(p.nextId, now, a.clientFd, a.upstreamFd);
            if TakenOn(p, cfg, a)
            then
              && q.sessions == [s] + p.sessions && Mapped(q.fds, s) && q.counters.accepted == p.counters.accepted + 1
              && s.client == Peer(a.clientFd, false, false, false) && s.upstream == Peer(a.upstreamFd, false, false, true)
              && s.id == p.nextId && s.lastActivity == now && s.toUpstream.content == [] && s.toClient.content == []
            else q.sessions == p.sessions && q.fds == p.fds && q.counters.accepted == p.counters.accepted
    ensures var q, full := AcceptOne(p, cfg, a, now), p.counters.active >= cfg.maxConnections;
            var made := !full && a.nonblocking && a.created;
            && q.counters.rejected == p.counters.rejected + (if full then 1 else 0)
            && q.counters.connectFails == p.counters.connectFails + (if made && a.upstreamFd < 0 then 1 else 0)
            && q.nextId == p.nextId + (if made then 1 else 0)
            && q.counters.bytesC2u == p.counters.bytesC2u && q.counters.bytesU2c == p.counters.bytesU2c
  {
    hide Inv, Destroyed, Unused;
    UnusedIsNatural(p, listenFd, a);
    var n := p.counters.connectFails;
    if p.counters.active < cfg.maxConnections && a.nonblocking && a.created {
      if a.upstreamFd < 0 {
        Undone(p, p.fds, Created(p.nextId, now, a.clientFd), listenFd, n + 1);
      } else {
        var s := NewSession(p.nextId, now, a.clientFd, a.upstreamFd);
        Undone(p, p.fds, s, listenFd, n);
        if a.clientCtx && a.clientFd < FD_CAP {
          var f1 := Registered(p.fds, a.clientFd, Ctx(s.id, Client));
          Undone(p, f1, s, listenFd, n);
          if a.upstreamCtx && a.upstreamFd < FD_CAP {
            Undone(p, Registered(f1, a.upstreamFd, Ctx(s.id, Upstream)), s, listenFd, n);
          }
        }
      }
    }
  }

  lemma UnusedIsNatural(p: Proxy, listenFd: int, a: AcceptAnswer)
    requires AnswerFits(p, listenFd, a)
    ensures a.clientFd >= 0 && (a.upstreamFd >= 0 ==> a.upstreamFd != a.clientFd)
  {
  }

  // ----- runs

  datatype Act =
    | DoAccept(answers: seq<AcceptAnswer>, now: int)
    | DoEvent(fd: int, ev: Events, k: Kernel, now: int)
    | DoSweep(now: int)
    | DoCloseAll

  predicate AnswersFit(p: Proxy, cfg: Config, answers: seq<AcceptAnswer>, now: int, listenFd: int)
    decreases answers
  {
    answers == [] || (AnswerFits(p, listenFd, answers[0])
                      && AnswersFit(AcceptOne(p, cfg, answers[0], now), cfg, answers[1..], now, listenFd))
  }

  predicate Possible(p: Proxy, cfg: Config, a: Act, listenFd: int) {
    match a
    case DoAccept(answers, now) => AnswersFit(p, cfg, answers, now, listenFd)
    case DoEvent(fd, _, k, _) =>
      Target(p, fd) < |p.sessions| ==> KernelFits(p.sessions[Target(p, fd)], p.fds[fd].side, k)
    case DoSweep(_) => true
    case DoCloseAll => true
  }

  function Next(p: Proxy, cfg: Config, a: Act, listenFd: int): Proxy
    requires Possible(p, cfg, a, listenFd)
  {
    match a
    case DoAccept(answers, now) => AcceptAll(p, cfg, answers, now)
    case DoEvent(fd, ev, k, now) => Dispatched(p, fd, ev, k, now)
    case DoSweep(now) => Swept(p, p.sessions, cfg, now)
    case DoCloseAll => AllClosed(p, p.sessions)
  }

  lemma {:induction false} AcceptAllKeepsInv(p: Proxy, cfg: Config, answers: seq<AcceptAnswer>, now: int, listenFd: int)
    requires Inv(p, listenFd) && AnswersFit(p, cfg, answers, now, listenFd)
    ensures Inv(AcceptAll(p, cfg, answers, now), listenFd)
    ensures AcceptAll(p, cfg, answers, now).counters.active
            <= if p.counters.active >= cfg.maxConnections then p.counters.active else cfg.maxConnections
    decreases answers
  {
    hide Inv, AcceptOne, AnswerFits;
    if answers != [] {
      AcceptKeepsInv(p, cfg, answers[0], now, listenFd);
      AcceptAllKeepsInv(AcceptOne(p, cfg, answers[0], now), cfg, answers[1..], now, listenFd);
    }
  }

  /** The same session as far as list and map can tell. */
  predicate SameSession(s: SessionState, t: SessionState) {
    s.id == t.id && s.client.fd == t.client.fd && s.upstream.fd == t.upstream.fd
  }

  lemma UpdateKeepsOwned(fds: seq<FdCtx>, sessions: seq<SessionState>, i: nat, t: SessionState)
    requires AllOwned(fds, sessions) && i < |sessions| && SameSession(sessions[i], t)
    ensures AllOwned(fds, sessions[i := t])
  {
    var l := sessions[i := t];
    forall fd | 0 <= fd < |fds| && fds[fd].Ctx? ensures exists j :: 0 <= j < |l| && Owns(l[j], fd, fds[fd]) {
      var k :| 0 <= k < |sessions| && Owns(sessions[k], fd, fds[fd]);
      assert Owns(l[k], fd, fds[fd]);
    }
  }

  lemma UpdateKeepsList(fds: seq<FdCtx>, sessions: seq<SessionState>, i: nat, t: SessionState, bound: nat)
    requires IdsDistinct(sessions, bound) && AllBuffersOk(sessions) && AllMapped(fds, sessions)
    requires i < |sessions| && SameSession(sessions[i], t) && BothOk(t)
    ensures IdsDistinct(sessions[i := t], bound) && AllBuffersOk(sessions[i := t]) && AllMapped(fds, sessions[i := t])
  {
    hide BothOk;
    assert Mapped(fds, sessions[i]);
  }

  lemma UpdateKeepsInv(p: Proxy, i: nat, t: SessionState, c: Counters, listenFd: int)
    requires Inv(p, listenFd) && i < |p.sessions| && BothOk(t) && SameSession(p.sessions[i], t)
    requires c.active == p.counters.active && c.closed == p.counters.closed
    ensures Inv(p.(sessions := p.sessions[i := t], counters := c), listenFd)
  {
    hide BothOk, OneListener, AllMapped, AllOwned, IdsDistinct, AllBuffersOk, SameSession;
    UpdateKeepsOwned(p.fds, p.sessions, i, t);
    UpdateKeepsList(p.fds, p.sessions, i, t, p.nextId);
  }

  lemma EventKeepsInv(p: Proxy, fd: int, ev: Events, k: Kernel, now: int, listenFd: int)
    requires Inv(p, listenFd)
    requires Target(p, fd) < |p.sessions| ==> KernelFits(p.sessions[Target(p, fd)], p.fds[fd].side, k)
    ensures Inv(Dispatched(p, fd, ev, k, now), listenFd)
    ensures Dispatched(p, fd, ev, k, now).counters.active <= p.counters.active
  {
    var i := Target(p, fd);
    if i < |p.sessions| {
      assert BothOk(p.sessions[i]);
      hide Inv, HandleIo, KernelFits, BothOk, Destroyed;
      var side := p.fds[fd].side;
      IoHandled(p.sessions[i], side, ev, k, now);
      var o := HandleIo(p.sessions[i], side, ev, k, now);
      UpdateKeepsInv(p, i, o.session, Counting(p.counters, side, o.tally), listenFd);
      var p1 := p.(sessions := p.sessions[i := o.session], counters := Counting(p.counters, side, o.tally));
      assert p1.sessions[i] == o.session;
      DestroyKeepsInv(p1, i, listenFd);
      DestroyCounts(p1, o.session);
    }
  }

  /** An event changes the session it is for, which stays in its place or is the one removed; no other
      session and no foreign map entry is touched. */
  lemma EventTouchesOne(p: Proxy, fd: int, ev: Events, k: Kernel, now: int, listenFd: int)
    requires Inv(p, listenFd)
    requires Target(p, fd) < |p.sessions| ==> KernelFits(p.sessions[Target(p, fd)], p.fds[fd].side, k)
    ensures var q, i := Dispatched(p, fd, ev, k, now), Target(p, fd);
            if i == |p.sessions| then q == p
            else
              var o := HandleIo(p.sessions[i], p.fds[fd].side, ev, k, now);
              if o.keep then q.sessions == p.sessions[i := o.session] && q.fds == p.fds
              else q.sessions == p.sessions[..i] + p.sessions[i + 1..] && q.fds == Cleared(p.fds, p.sessions[i])
  {
    var i := Target(p, fd);
    if i < |p.sessions| {
      assert BothOk(p.sessions[i]) && Mapped(p.fds, p.sessions[i]);
      hide Inv, HandleIo, KernelFits, BothOk, Target;
      var side := p.fds[fd].side;
      IoHandled(p.sessions[i], side, ev, k, now);
      var o := HandleIo(p.sessions[i], side, ev, k, now);
      var p1 := p.(sessions := p.sessions[i := o.session], counters := Counting(p.counters, side, o.tally));
      UpdateKeepsInv(p, i, o.session, p1.counters, listenFd);
      assert p1.sessions[i] == o.session;
      DestroyKeepsInv(p1, i, listenFd);
    }
  }

  lemma DestroyCounts(p: Proxy, s: SessionState)
    ensures Destroyed(p, s).counters.active <= p.counters.active
    ensures Destroyed(p, s).counters.idleKills == p.counters.idleKills
  {
    hide Unlinked, Unregistered;
  }

  /** The sessions a sweep leaves. */
  function Busy(sessions: seq<SessionState>, cfg: Config, now: int): seq<SessionState> {
    if sessions == [] then []
    else (if Idle(sessions[0], cfg, now) then [] else [sessions[0]]) + Busy(sessions[1..], cfg, now)
  }

  /** The idle sweep destroys exactly the sessions past the timeout, keeps the others in order, and
      counts the ones it destroyed. */
  lemma {:induction false} SweepKeepsBusy(p: Proxy, kept: seq<SessionState>, todo: seq<SessionState>, cfg: Config,
                                          now: int, listenFd: int)
    requires Inv(p, listenFd) && p.sessions == kept + todo
    ensures var q := Swept(p, todo, cfg, now);
            && Inv(q, listenFd) && q.sessions == kept + Busy(todo, cfg, now)
            && q.counters.idleKills == p.counters.idleKills + |todo| - |Busy(todo, cfg, now)|
            && q.counters.active <= p.counters.active
    decreases todo
  {
    hide Inv, Destroyed, Idle;
    if todo == [] {
      assert kept + todo == kept + Busy(todo, cfg, now) == kept;
    } else if Idle(todo[0], cfg, now) {
      var p1 := p.(counters := p.counters.(idleKills := p.counters.idleKills + 1));
      IdleCountKeepsInv(p, listenFd);
      assert p1.sessions[|kept|] == todo[0];
      DestroyKeepsInv(p1, |kept|, listenFd);
      DestroyCounts(p1, todo[0]);
      assert p1.sessions[..|kept|] + p1.sessions[|kept| + 1..] == kept + todo[1..];
      SweepKeepsBusy(Destroyed(p1, todo[0]), kept, todo[1..], cfg, now, listenFd);
      assert Busy(todo, cfg, now) == Busy(todo[1..], cfg, now);
    } else {
      assert kept + todo == (kept + [todo[0]]) + todo[1..];
      SweepKeepsBusy(p, kept + [todo[0]], todo[1..], cfg, now, listenFd);
      assert (kept + [todo[0]]) + Busy(todo[1..], cfg, now) == kept + Busy(todo, cfg, now);
    }
  }

  lemma IdleCountKeepsInv(p: Proxy, listenFd: int)
    requires Inv(p, listenFd)
    ensures Inv(p.(counters := p.counters.(idleKills := p.counters.idleKills + 1)), listenFd)
  {
    hide AllMapped, AllOwned, OneListener, IdsDistinct, AllBuffersOk;
  }

  /** Shutdown leaves no session and no side entry behind. */
  lemma {:induction false} CloseAllEmpties(p: Proxy, listenFd: int)
    requires Inv(p, listenFd)
    ensures var q := AllClosed(p, p.sessions);
            Inv(q, listenFd) && q.sessions == [] && q.counters.active == 0
            && forall fd :: 0 <= fd < FD_CAP && fd < |q.fds| && fd != listenFd ==> q.fds[fd] == NoCtx
    decreases |p.sessions|
  {
    if p.sessions == [] {
      EmptyMap(p, listenFd);
    } else {
      hide Inv, Destroyed;
      var q := Destroyed(p, p.sessions[0]);
      DestroyKeepsInv(p, 0, listenFd);
      assert p.sessions[..0] + p.sessions[1..] == p.sessions[1..];
      CloseAllEmpties(q, listenFd);
    }
  }

  lemma EmptyMap(p: Proxy, listenFd: int)
    requires Inv(p, listenFd) && p.sessions == []
    ensures forall fd :: 0 <= fd < FD_CAP && fd < |p.fds| && fd != listenFd ==> p.fds[fd] == NoCtx
  {
  }

  /** The connection cap, for the limit the loop compares with. */
  predicate Capped(p: Proxy, cfg: Config) {
    cfg.maxConnections > 0 ==> p.counters.active <= cfg.maxConnections
  }

  lemma NextKeepsInv(p: Proxy, cfg: Config, a: Act, listenFd: int)
    requires Inv(p, listenFd) && Capped(p, cfg) && Possible(p, cfg, a, listenFd)
    ensures Inv(Next(p, cfg, a, listenFd), listenFd) && Capped(Next(p, cfg, a, listenFd), cfg)
  {
    hide Inv, AcceptAll, Dispatched, Swept, AllClosed, AnswersFit, Target;
    match a {
      case DoAccept(answers, now) => AcceptAllKeepsInv(p, cfg, answers, now, listenFd);
      case DoEvent(fd, ev, k, now) => EventKeepsInv(p, fd, ev, k, now, listenFd);
      case DoSweep(now) =>
        assert [] + p.sessions == p.sessions;
        SweepKeepsBusy(p, [], p.sessions, cfg, now, listenFd);
      case DoCloseAll => CloseAllEmpties(p, listenFd);
    }
  }

  predicate PossibleRun(p: Proxy, cfg: Config, acts: seq<Act>, listenFd: int)
    decreases acts
  {
    acts == [] || (Possible(p, cfg, acts[0], listenFd)
                   && PossibleRun(Next(p, cfg, acts[0], listenFd), cfg, acts[1..], listenFd))
  }

  function Run(p: Proxy, cfg: Config, acts: seq<Act>, listenFd: int): Proxy
    requires PossibleRun(p, cfg, acts, listenFd)
    decreases acts
  {
    if acts == [] then p else Run(Next(p, cfg, acts[0], listenFd), cfg, acts[1..], listenFd)
  }

  lemma {:induction false} RunKeepsInv(p: Proxy, cfg: Config, acts: seq<Act>, listenFd: int)
    requires Inv(p, listenFd) && Capped(p, cfg) && PossibleRun(p, cfg, acts, listenFd)
    ensures Inv(Run(p, cfg, acts, listenFd), listenFd) && Capped(Run(p, cfg, acts, listenFd), cfg)
    decreases acts
  {
    hide Inv, Capped, Next, Possible;
    if acts != [] {
      NextKeepsInv(p, cfg, acts[0], listenFd);
      RunKeepsInv(Next(p, cfg, acts[0], listenFd), cfg, acts[1..], listenFd);
    }
  }

  lemma StartInv(listenFd: int)
    requires 0 <= listenFd < FD_CAP
    ensures Inv(Started(listenFd), listenFd)
  {
  }

  /** Over every run from start-up: the fd map and the session list agree entry by entry, ids are
      unique, the counters add up, and the connection cap holds. */
  lemma BooksBalance(listenFd: int, cfg: Config, acts: seq<Act>)
    requires 0 <= listenFd < FD_CAP && PossibleRun(Started(listenFd), cfg, acts, listenFd)
    ensures var p := Run(Started(listenFd), cfg, acts, listenFd);
            && Inv(p, listenFd) && p.counters.active == |p.sessions|
            && p.counters.closed + p.counters.active == p.nextId - 1
            && (cfg.maxConnections > 0 ==> p.counters.active <= cfg.maxConnections)
  {
    StartInv(listenFd);
    assert Capped(Started(listenFd), cfg);
    hide Next, Possible, Started;
    RunKeepsInv(Started(listenFd), cfg, acts, listenFd);
  }
}
