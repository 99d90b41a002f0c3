/** Stream integrity of every session of the proxy at once: the bytes that crossed the sockets of each
    session, recorded over whole runs. */
module ProxyFlows {
  import opened Octets
  import opened RelaySpec
  import opened ProxySpec
  import RelayRuns
  import RelayProgress
  import opened ProxyRuns

  /** Both directions of one session: client to upstream, and back. */
  datatype Traffic = Traffic(up: RelayRuns.Flow, down: RelayRuns.Flow)

  const NO_TRAFFIC := Traffic(RelayRuns.Flow([], []), RelayRuns.Flow([], []))

  /** What crossed the sockets of session `id` so far. */
  function TrafficOf(m: map<nat, Traffic>, id: nat): Traffic {
    if id in m then m[id] else NO_TRAFFIC
  }

  /** An event on a side's socket receives from that side and sends to it. */
  function Crossed(t: Traffic, side: Side, o: Outcome): Traffic {
    if side == Client
    then Traffic(RelayRuns.Flow(t.up.received + o.received, t.up.sent), RelayRuns.Flow(t.down.received, t.down.sent + o.sent))
    else Traffic(RelayRuns.Flow(t.up.received, t.up.sent + o.sent), RelayRuns.Flow(t.down.received + o.received, t.down.sent))
  }

  /** Only events move bytes: the descriptor's entry in the map says whose they are. */
  function Recorded(p: Proxy, m: map<nat, Traffic>, cfg: Config, a: Act, listenFd: int): map<nat, Traffic>
    requires Possible(p, cfg, a, listenFd)
  {
    if !a.DoEvent? || Target(p, a.fd) == |p.sessions| then m else
    var s, side := p.sessions[Target(p, a.fd)], p.fds[a.fd].side;
    m[s.id := Crossed(TrafficOf(m, s.id), side, HandleIo(s, side, a.ev, a.k, a.now))]
  }

  function RecordedRun(p: Proxy, m: map<nat, Traffic>, cfg: Config, acts: seq<Act>, listenFd: int): map<nat, Traffic>
    requires PossibleRun(p, cfg, acts, listenFd)
    decreases acts
  {
    if acts == [] then m
    else RecordedRun(Next(p, cfg, acts[0], listenFd), Recorded(p, m, cfg, acts[0], listenFd), cfg, acts[1..], listenFd)
  }

  // ----- the invariant

  /** In both directions received is sent plus buffered. */
  predicate Intact(t: Traffic, s: SessionState) {
    && t.up.received == t.up.sent + s.toUpstream.content
    && t.down.received == t.down.sent + s.toClient.content
  }

  /** Nothing was sent that had not been received before, in order. */
  predicate InOrder(t: Traffic) {
    t.up.sent <= t.up.received && t.down.sent <= t.down.received
  }

  predicate AllIntact(sessions: seq<SessionState>, m: map<nat, Traffic>) {
    forall i :: 0 <= i < |sessions| ==> Intact(TrafficOf(m, sessions[i].id), sessions[i])
  }

  /** Ids not handed out yet have no traffic. */
  predicate AllInOrder(m: map<nat, Traffic>, nextId: nat) {
    forall id :: id in m ==> id < nextId && InOrder(m[id])
  }

  predicate FlowsOk(p: Proxy, m: map<nat, Traffic>) {
    AllIntact(p.sessions, m) && AllInOrder(m, p.nextId)
  }

  // ----- every action keeps it

  lemma NewcomerIntact(sessions: seq<SessionState>, m: map<nat, Traffic>, s: SessionState)
    requires AllIntact(sessions, m) && s.id !in m && s.toUpstream == s.toClient == EMPTY_BUF
    ensures AllIntact([s] + sessions, m)
  {
    hide Intact, TrafficOf;
    var l := [s] + sessions;
    EmptyIntact(m, s);
    forall i | 0 <= i < |l| ensures Intact(TrafficOf(m, l[i].id), l[i]) {
      assert i > 0 ==> l[i] == sessions[i - 1];
    }
  }

  lemma EmptyIntact(m: map<nat, Traffic>, s: SessionState)
    requires s.id !in m && s.toUpstream == s.toClient == EMPTY_BUF
    ensures Intact(TrafficOf(m, s.id), s)
  {
  }

  lemma AcceptMovesOn(p: Proxy, cfg: Config, a: AcceptAnswer, now: int)
    ensures AcceptOne(p, cfg, a, now).nextId >= p.nextId
  {
    hide Registered, Unlinked, Unregistered;
  }

  lemma LaterIds(m: map<nat, Traffic>, n: nat, n': nat)
    requires AllInOrder(m, n) && n <= n'
    ensures AllInOrder(m, n')
  {
    hide InOrder;
  }

  lemma AcceptKeepsFlows(p: Proxy, m: map<nat, Traffic>, cfg: Config, a: AcceptAnswer, now: int, listenFd: int)
    requires ProxyRuns.Inv(p, listenFd) && AnswerFits(p, listenFd, a) && FlowsOk(p, m)
    ensures FlowsOk(AcceptOne(p, cfg, a, now), m)
  {
    assert |p.fds| == FD_CAP;
    hide ProxyRuns.Inv, AnswerFits, AcceptOne, AllIntact;
    AcceptEffect(p, cfg, a, now, listenFd);
    AcceptMovesOn(p, cfg, a, now);
    LaterIds(m, p.nextId, AcceptOne(p, cfg, a, now).nextId);
    NewcomerIntact(p.sessions, m, NewSession(p.nextId, now, a.clientFd, a.upstreamFd));
  }

  lemma {:induction false} AcceptAllKeepsFlows(p: Proxy, m: map<nat, Traffic>, cfg: Config, answers: seq<AcceptAnswer>,
                                               now: int, listenFd: int)
    requires ProxyRuns.Inv(p, listenFd) && AnswersFit(p, cfg, answers, now, listenFd) && FlowsOk(p, m)
    ensures FlowsOk(AcceptAll(p, cfg, answers, now), m)
    decreases answers
  {
    hide ProxyRuns.Inv, AcceptOne, AnswerFits, FlowsOk;
    if answers != [] {
      AcceptKeepsInv(p, cfg, answers[0], now, listenFd);
      AcceptKeepsFlows(p, m, cfg, answers[0], now, listenFd);
      AcceptAllKeepsFlows(AcceptOne(p, cfg, answers[0], now), m, cfg, answers[1..], now, listenFd);
    }
  }

  lemma CrossedIntact(t: Traffic, s: SessionState, side: Side, ev: Events, o: Outcome)
    requires Intact(t, s) && InOrder(t) && RelayRuns.BytesMoved(s, side, ev, o)
    ensures Intact(Crossed(t, side, o), o.session) && InOrder(Crossed(t, side, o))
  {
  }

  lemma IntactOrdered(t: Traffic, s: SessionState)
    requires Intact(t, s)
    ensures InOrder(t)
  {
  }

  /** Another session's entry is not touched. */
  lemma OthersIntact(sessions: seq<SessionState>, m: map<nat, Traffic>, i: nat, s: SessionState, t: Traffic, bound: nat)
    requires AllIntact(sessions, m) && IdsDistinct(sessions, bound) && i < |sessions|
    requires s.id == sessions[i].id && Intact(t, s)
    ensures AllIntact(sessions[i := s], m[s.id := t])
    ensures AllIntact(sessions[..i] + sessions[i + 1..], m[s.id := t])
  {
    hide Intact;
    var l, r := sessions[i := s], sessions[..i] + sessions[i + 1..];
    forall k | 0 <= k < |l| ensures Intact(TrafficOf(m[s.id := t], l[k].id), l[k]) {
      DistinctAt(sessions, k, i, bound);
    }
    forall k | 0 <= k < |r| ensures Intact(TrafficOf(m[s.id := t], r[k].id), r[k]) {
      var j := if k < i then k else k + 1;
      assert r[k] == sessions[j];
      DistinctAt(sessions, j, i, bound);
    }
  }

  lemma EntryInOrder(m: map<nat, Traffic>, id: nat, t: Traffic, bound: nat)
    requires AllInOrder(m, bound) && id < bound && InOrder(t)
    ensures AllInOrder(m[id := t], bound)
  {
    hide InOrder;
  }

  lemma DestroyKeepsIds(p: Proxy, s: SessionState)
    ensures Destroyed(p, s).nextId == p.nextId
  {
    hide Unlinked, Unregistered;
  }

  lemma EventKeepsIds(p: Proxy, fd: int, ev: Events, k: Kernel, now: int)
    requires Target(p, fd) < |p.sessions| ==> KernelFits(p.sessions[Target(p, fd)], p.fds[fd].side, k)
    ensures Dispatched(p, fd, ev, k, now).nextId == p.nextId
  {
    hide Destroyed, HandleIo, KernelFits;
    var i := Target(p, fd);
    if i < |p.sessions| {
      var side := p.fds[fd].side;
      var o := HandleIo(p.sessions[i], side, ev, k, now);
      DestroyKeepsIds(p.(sessions := p.sessions[i := o.session], counters := Counting(p.counters, side, o.tally)), o.session);
    }
  }

  lemma InvAt(p: Proxy, listenFd: int, i: nat)
    requires ProxyRuns.Inv(p, listenFd) && i < |p.sessions|
    ensures RelayRuns.BothOk(p.sessions[i]) && p.sessions[i].id < p.nextId && IdsDistinct(p.sessions, p.nextId)
  {
    hide RelayRuns.BothOk, AllOwned, AllMapped;
  }

  /** The target's own traffic stays intact. */
  lemma TargetIntact(p: Proxy, m: map<nat, Traffic>, cfg: Config, a: Act, listenFd: int)
    requires ProxyRuns.Inv(p, listenFd) && a.DoEvent? && Possible(p, cfg, a, listenFd) && FlowsOk(p, m)
    requires Target(p, a.fd) < |p.sessions|
    ensures var s, side := p.sessions[Target(p, a.fd)], p.fds[a.fd].side;
            var o := HandleIo(s, side, a.ev, a.k, a.now);
            var t := Crossed(TrafficOf(m, s.id), side, o);
            Intact(t, o.session) && InOrder(t) && o.session.id == s.id
  {
    var i := Target(p, a.fd);
    var s, side := p.sessions[i], p.fds[a.fd].side;
    InvAt(p, listenFd, i);
    hide ProxyRuns.Inv, HandleIo, KernelFits, IdsDistinct, RelayRuns.BytesMoved, RelayRuns.ShutInOrder, RelayRuns.BothOk,
         Intact, InOrder, Crossed, TrafficOf;
    RelayRuns.IoHandled(s, side, a.ev, a.k, a.now);
    var t := TrafficOf(m, s.id);
    assert Intact(t, s);
    IntactOrdered(t, s);
    CrossedIntact(t, s, side, a.ev, HandleIo(s, side, a.ev, a.k, a.now));
  }

  lemma EventKeepsFlows(p: Proxy, m: map<nat, Traffic>, cfg: Config, a: Act, listenFd: int)
    requires ProxyRuns.Inv(p, listenFd) && a.DoEvent? && Possible(p, cfg, a, listenFd) && FlowsOk(p, m)
    ensures FlowsOk(Next(p, cfg, a, listenFd), Recorded(p, m, cfg, a, listenFd))
  {
    var i := Target(p, a.fd);
    EventTouchesOne(p, a.fd, a.ev, a.k, a.now, listenFd);
    EventKeepsIds(p, a.fd, a.ev, a.k, a.now);
    if i < |p.sessions| {
      var s, side := p.sessions[i], p.fds[a.fd].side;
      InvAt(p, listenFd, i);
      TargetIntact(p, m, cfg, a, listenFd);
      hide ProxyRuns.Inv, HandleIo, KernelFits, Dispatched, IdsDistinct, RelayRuns.BothOk, Intact, InOrder, Crossed,
           TrafficOf, Cleared, AllIntact, AllInOrder;
      var o := HandleIo(s, side, a.ev, a.k, a.now);
      var t := Crossed(TrafficOf(m, s.id), side, o);
      OthersIntact(p.sessions, m, i, o.session, t, p.nextId);
      EntryInOrder(m, s.id, t, p.nextId);
    }
  }

  lemma {:induction false} SweepKeepsIds(p: Proxy, todo: seq<SessionState>, cfg: Config, now: int)
    ensures Swept(p, todo, cfg, now).nextId == p.nextId
    decreases todo
  {
    hide Destroyed, ProxySpec.Idle;
    if todo != [] {
      var p1 := p.(counters := p.counters.(idleKills := p.counters.idleKills + 1));
      DestroyKeepsIds(p1, todo[0]);
      SweepKeepsIds(Destroyed(p1, todo[0]), todo[1..], cfg, now);
      SweepKeepsIds(p, todo[1..], cfg, now);
    }
  }

  lemma {:induction false} BusyIntact(sessions: seq<SessionState>, m: map<nat, Traffic>, cfg: Config, now: int)
    requires AllIntact(sessions, m)
    ensures AllIntact(Busy(sessions, cfg, now), m)
  {
    hide Intact, ProxySpec.Idle, TrafficOf;
    if sessions != [] {
      var rest := sessions[1..];
      assert AllIntact(rest, m);
      BusyIntact(rest, m, cfg, now);
      var l := [sessions[0]] + Busy(rest, cfg, now);
      assert forall i :: 0 < i < |l| ==> l[i] == Busy(rest, cfg, now)[i - 1];
      assert AllIntact(l, m);
      assert [] + Busy(rest, cfg, now) == Busy(rest, cfg, now);
    }
  }

  lemma {:induction false} CloseKeepsIds(p: Proxy, todo: seq<SessionState>)
    ensures AllClosed(p, todo).nextId == p.nextId
    decreases todo
  {
    hide Destroyed;
    if todo != [] {
      DestroyKeepsIds(p, todo[0]);
      CloseKeepsIds(Destroyed(p, todo[0]), todo[1..]);
    }
  }

  lemma NextKeepsFlows(p: Proxy, m: map<nat, Traffic>, cfg: Config, a: Act, listenFd: int)
    requires ProxyRuns.Inv(p, listenFd) && Possible(p, cfg, a, listenFd) && FlowsOk(p, m)
    ensures FlowsOk(Next(p, cfg, a, listenFd), Recorded(p, m, cfg, a, listenFd))
  {
    hide ProxyRuns.Inv, AcceptAll, Dispatched, Swept, AllClosed, AnswersFit, Target, AllIntact, AllInOrder, KernelFits,
         HandleIo;
    match a {
      case DoAccept(answers, now) => AcceptAllKeepsFlows(p, m, cfg, answers, now, listenFd);
      case DoEvent(_, _, _, _) => EventKeepsFlows(p, m, cfg, a, listenFd);
      case DoSweep(now) =>
        assert [] + p.sessions == p.sessions && [] + Busy(p.sessions, cfg, now) == Busy(p.sessions, cfg, now);
        SweepKeepsBusy(p, [], p.sessions, cfg, now, listenFd);
        SweepKeepsIds(p, p.sessions, cfg, now);
        BusyIntact(p.sessions, m, cfg, now);
      case DoCloseAll =>
        CloseAllEmpties(p, listenFd);
        CloseKeepsIds(p, p.sessions);
        NobodyIntact(m);
    }
  }

  lemma NobodyIntact(m: map<nat, Traffic>)
    ensures AllIntact([], m)
  {
  }

  lemma {:induction false} RunKeepsFlows(p: Proxy, m: map<nat, Traffic>, cfg: Config, acts: seq<Act>, listenFd: int)
    requires ProxyRuns.Inv(p, listenFd) && Capped(p, cfg) && PossibleRun(p, cfg, acts, listenFd) && FlowsOk(p, m)
    ensures FlowsOk(Run(p, cfg, acts, listenFd), RecordedRun(p, m, cfg, acts, listenFd))
    decreases acts
  {
    hide ProxyRuns.Inv, Capped, Next, Possible, Recorded, FlowsOk;
    if acts != [] {
      NextKeepsInv(p, cfg, acts[0], listenFd);
      NextKeepsFlows(p, m, cfg, acts[0], listenFd);
      RunKeepsFlows(Next(p, cfg, acts[0], listenFd), Recorded(p, m, cfg, acts[0], listenFd), cfg, acts[1..], listenFd);
    }
  }

  /** Over every run of the proxy, for every session it ever had: in both directions nothing was sent on
      the session's sockets but what had been received on them, in order; and of a session still listed
      exactly the buffered bytes are missing. */
  lemma EveryStreamIntact(listenFd: int, cfg: Config, acts: seq<Act>)
    requires 0 <= listenFd < FD_CAP && PossibleRun(Started(listenFd), cfg, acts, listenFd)
    ensures var p := Run(Started(listenFd), cfg, acts, listenFd);
            var m := RecordedRun(Started(listenFd), map[], cfg, acts, listenFd);
            && (forall id: nat :: InOrder(TrafficOf(m, id)))
            && (forall i :: 0 <= i < |p.sessions| ==> Intact(TrafficOf(m, p.sessions[i].id), p.sessions[i]))
  {
    StartInv(listenFd);
    hide Next, Possible, Started, Run, RecordedRun, ProxyRuns.Inv, Intact;
    StartEmpty(listenFd);
    RunKeepsFlows(Started(listenFd), map[], cfg, acts, listenFd);
  }

  lemma StartEmpty(listenFd: int)
    requires 0 <= listenFd < FD_CAP
    ensures Started(listenFd).sessions == [] && Started(listenFd).counters.active == 0
  {
  }

  // ----- the byte counters

  /** The bytes received from one side in the sessions with ids below `n`. */
  function TotalReceived(m: map<nat, Traffic>, side: Side, n: nat): nat {
    if n == 0 then 0 else
    TotalReceived(m, side, n - 1) + |ReceivedFrom(TrafficOf(m, n - 1), side)|
  }

  function ReceivedFrom(t: Traffic, side: Side): seq<byte> {
    if side == Client then t.up.received else t.down.received
  }

  predicate BytesCounted(p: Proxy, m: map<nat, Traffic>) {
    && p.counters.bytesC2u == TotalReceived(m, Client, p.nextId)
    && p.counters.bytesU2c == TotalReceived(m, Upstream, p.nextId)
  }

  lemma {:induction false} TotalSame(m: map<nat, Traffic>, side: Side, n: nat, n': nat)
    requires AllInOrder(m, n) && n <= n'
    ensures TotalReceived(m, side, n') == TotalReceived(m, side, n)
    decreases n'
  {
    hide InOrder;
    if n < n' {
      TotalSame(m, side, n, n' - 1);
    }
  }

  lemma {:induction false} TotalGrows(m: map<nat, Traffic>, side: Side, n: nat, id: nat, t: Traffic)
    ensures TotalReceived(m[id := t], side, n)
            == TotalReceived(m, side, n)
               + (if id < n then |ReceivedFrom(t, side)| - |ReceivedFrom(TrafficOf(m, id), side)| else 0)
  {
    hide ReceivedFrom;
    if n > 0 {
      TotalGrows(m, side, n - 1, id, t);
    }
  }

  /** Nothing but events touches the byte counters. */
  predicate SameBytes(p: Proxy, q: Proxy) {
    q.counters.bytesC2u == p.counters.bytesC2u && q.counters.bytesU2c == p.counters.bytesU2c
  }

  lemma DestroyKeepsBytes(p: Proxy, s: SessionState)
    ensures SameBytes(p, Destroyed(p, s)) && Destroyed(p, s).nextId == p.nextId
  {
    hide Unlinked, Unregistered;
  }

  lemma {:induction false} AcceptAllKeepsBytes(p: Proxy, cfg: Config, answers: seq<AcceptAnswer>, now: int, listenFd: int)
    requires ProxyRuns.Inv(p, listenFd) && AnswersFit(p, cfg, answers, now, listenFd)
    ensures SameBytes(p, AcceptAll(p, cfg, answers, now)) && AcceptAll(p, cfg, answers, now).nextId >= p.nextId
    decreases answers
  {
    hide ProxyRuns.Inv, AcceptOne, AnswerFits;
    if answers != [] {
      MapSize(p, listenFd);
      AcceptKeepsInv(p, cfg, answers[0], now, listenFd);
      AcceptEffect(p, cfg, answers[0], now, listenFd);
      AcceptAllKeepsBytes(AcceptOne(p, cfg, answers[0], now), cfg, answers[1..], now, listenFd);
    }
  }

  lemma MapSize(p: Proxy, listenFd: int)
    requires ProxyRuns.Inv(p, listenFd)
    ensures |p.fds| == FD_CAP
  {
    hide AllMapped, AllOwned, AllBuffersOk, IdsDistinct;
  }

  lemma {:induction false} SweepKeepsBytes(p: Proxy, todo: seq<SessionState>, cfg: Config, now: int)
    ensures SameBytes(p, Swept(p, todo, cfg, now)) && Swept(p, todo, cfg, now).nextId == p.nextId
    decreases todo
  {
    hide Destroyed, ProxySpec.Idle;
    if todo != [] {
      var p1 := p.(counters := p.counters.(idleKills := p.counters.idleKills + 1));
      DestroyKeepsBytes(p1, todo[0]);
      SweepKeepsBytes(Destroyed(p1, todo[0]), todo[1..], cfg, now);
      SweepKeepsBytes(p, todo[1..], cfg, now);
    }
  }

  lemma {:induction false} CloseKeepsBytes(p: Proxy, todo: seq<SessionState>)
    ensures SameBytes(p, AllClosed(p, todo)) && AllClosed(p, todo).nextId == p.nextId
    decreases todo
  {
    hide Destroyed;
    if todo != [] {
      DestroyKeepsBytes(p, todo[0]);
      CloseKeepsBytes(Destroyed(p, todo[0]), todo[1..]);
    }
  }

  lemma DispatchCounts(p: Proxy, fd: int, ev: Events, k: Kernel, now: int)
    requires Target(p, fd) < |p.sessions| && KernelFits(p.sessions[Target(p, fd)], p.fds[fd].side, k)
    ensures var q, side := Dispatched(p, fd, ev, k, now), p.fds[fd].side;
            var n := HandleIo(p.sessions[Target(p, fd)], side, ev, k, now).tally.bytesIn;
            && q.counters.bytesC2u == p.counters.bytesC2u + (if side == Client then n else 0)
            && q.counters.bytesU2c == p.counters.bytesU2c + (if side == Upstream then n else 0)
  {
    hide HandleIo, KernelFits, Destroyed;
    var side := p.fds[fd].side;
    var i := Target(p, fd);
    var o := HandleIo(p.sessions[i], side, ev, k, now);
    DestroyKeepsBytes(p.(sessions := p.sessions[i := o.session], counters := Counting(p.counters, side, o.tally)), o.session);
  }

  /** What an event adds to the totals. */
  lemma CrossedCounts(m: map<nat, Traffic>, id: nat, n: nat, side: Side, o: Outcome)
    requires id < n
    ensures var m' := m[id := Crossed(TrafficOf(m, id), side, o)];
            && TotalReceived(m', Client, n) == TotalReceived(m, Client, n) + (if side == Client then |o.received| else 0)
            && TotalReceived(m', Upstream, n)
               == TotalReceived(m, Upstream, n) + (if side == Upstream then |o.received| else 0)
  {
    hide TotalReceived, TrafficOf;
    var t := Crossed(TrafficOf(m, id), side, o);
    TotalGrows(m, Client, n, id, t);
    TotalGrows(m, Upstream, n, id, t);
  }

  lemma TallyIs(s: SessionState, side: Side, ev: Events, k: Kernel, now: int)
    requires RelayRuns.BothOk(s) && KernelFits(s, side, k)
    ensures HandleIo(s, side, ev, k, now).tally.bytesIn == |HandleIo(s, side, ev, k, now).received|
  {
    hide HandleIo, RelayRuns.BothOk, KernelFits;
    RelayProgress.EventLaw(s, side, ev, k, now);
  }

  /** What an event adds to counters and totals. */
  lemma TargetCounts(p: Proxy, m: map<nat, Traffic>, fd: int, ev: Events, k: Kernel, now: int, listenFd: int)
    requires ProxyRuns.Inv(p, listenFd) && Target(p, fd) < |p.sessions|
    requires KernelFits(p.sessions[Target(p, fd)], p.fds[fd].side, k) && BytesCounted(p, m)
    ensures var s, side := p.sessions[Target(p, fd)], p.fds[fd].side;
            BytesCounted(Dispatched(p, fd, ev, k, now),
                         m[s.id := Crossed(TrafficOf(m, s.id), side, HandleIo(s, side, ev, k, now))])
  {
    EventKeepsIds(p, fd, ev, k, now);
    var s, side := p.sessions[Target(p, fd)], p.fds[fd].side;
    InvAt(p, listenFd, Target(p, fd));
    DispatchCounts(p, fd, ev, k, now);
    hide ProxyRuns.Inv, HandleIo, KernelFits, IdsDistinct, RelayRuns.BothOk, TotalReceived, TrafficOf, Crossed, Dispatched,
         Target;
    TallyIs(s, side, ev, k, now);
    CrossedCounts(m, s.id, p.nextId, side, HandleIo(s, side, ev, k, now));
  }

  lemma EventCounts(p: Proxy, m: map<nat, Traffic>, cfg: Config, a: Act, listenFd: int)
    requires ProxyRuns.Inv(p, listenFd) && a.DoEvent? && Possible(p, cfg, a, listenFd) && BytesCounted(p, m)
    ensures BytesCounted(Next(p, cfg, a, listenFd), Recorded(p, m, cfg, a, listenFd))
  {
    hide ProxyRuns.Inv, HandleIo, KernelFits, BytesCounted, TrafficOf, Crossed;
    if Target(p, a.fd) < |p.sessions| {
      TargetCounts(p, m, a.fd, a.ev, a.k, a.now, listenFd);
    }
  }

  lemma NextCounts(p: Proxy, m: map<nat, Traffic>, cfg: Config, a: Act, listenFd: int)
    requires ProxyRuns.Inv(p, listenFd) && Possible(p, cfg, a, listenFd) && FlowsOk(p, m) && BytesCounted(p, m)
    ensures BytesCounted(Next(p, cfg, a, listenFd), Recorded(p, m, cfg, a, listenFd))
  {
    hide ProxyRuns.Inv, AcceptAll, Dispatched, Swept, AllClosed, AnswersFit, Target, AllIntact, AllInOrder, KernelFits,
         HandleIo, TotalReceived;
    match a {
      case DoAccept(answers, now) =>
        AcceptAllKeepsBytes(p, cfg, answers, now, listenFd);
        TotalSame(m, Client, p.nextId, AcceptAll(p, cfg, answers, now).nextId);
        TotalSame(m, Upstream, p.nextId, AcceptAll(p, cfg, answers, now).nextId);
      case DoEvent(_, _, _, _) => EventCounts(p, m, cfg, a, listenFd);
      case DoSweep(now) => SweepKeepsBytes(p, p.sessions, cfg, now);
      case DoCloseAll => CloseKeepsBytes(p, p.sessions);
    }
  }

  lemma {:induction false} RunCounts(p: Proxy, m: map<nat, Traffic>, cfg: Config, acts: seq<Act>, listenFd: int)
    requires ProxyRuns.Inv(p, listenFd) && Capped(p, cfg) && PossibleRun(p, cfg, acts, listenFd)
    requires FlowsOk(p, m) && BytesCounted(p, m)
    ensures BytesCounted(Run(p, cfg, acts, listenFd), RecordedRun(p, m, cfg, acts, listenFd))
    decreases acts
  {
    hide ProxyRuns.Inv, Capped, Next, Possible, Recorded, FlowsOk, BytesCounted;
    if acts != [] {
      NextKeepsInv(p, cfg, acts[0], listenFd);
      NextKeepsFlows(p, m, cfg, acts[0], listenFd);
      NextCounts(p, m, cfg, acts[0], listenFd);
      RunCounts(Next(p, cfg, acts[0], listenFd), Recorded(p, m, cfg, acts[0], listenFd), cfg, acts[1..], listenFd);
    }
  }

  /** Over every run the two byte counters are what was received from all clients and from all upstreams,
      in all sessions there ever were. */
  lemma CountersAddUp(listenFd: int, cfg: Config, acts: seq<Act>)
    requires 0 <= listenFd < FD_CAP && PossibleRun(Started(listenFd), cfg, acts, listenFd)
    ensures BytesCounted(Run(Started(listenFd), cfg, acts, listenFd),
                         RecordedRun(Started(listenFd), map[], cfg, acts, listenFd))
  {
    StartInv(listenFd);
    StartCounted(listenFd);
    hide Next, Possible, Started, Run, RecordedRun, ProxyRuns.Inv, BytesCounted;
    StartEmpty(listenFd);
    RunCounts(Started(listenFd), map[], cfg, acts, listenFd);
  }

  lemma StartCounted(listenFd: int)
    requires 0 <= listenFd < FD_CAP
    ensures BytesCounted(Started(listenFd), map[])
  {
  }
}
