/** The idle sweep against the history of the sessions: when each was accepted and when its events were
    handled. */
module ProxyTimes {
  import opened RelaySpec
  import opened ProxySpec
  import opened ProxyRuns
  import RelayRuns
  import RelayProgress

  /** Session `id` was accepted, or one of its events handled, at `time`. */
  datatype Stamp = Stamp(id: nat, time: int)

  predicate Known(log: seq<Stamp>, id: nat) {
    exists i :: 0 <= i < |log| && log[i].id == id
  }

  /** When the log last mentions `id`. */
  function Latest(log: seq<Stamp>, id: nat): int {
    if log == [] then 0
    else if log[|log| - 1].id == id then log[|log| - 1].time
    else Latest(log[..|log| - 1], id)
  }

  /** The accept loop puts down every connection that is taken on. */
  function AcceptStamped(p: Proxy, log: seq<Stamp>, cfg: Config, answers: seq<AcceptAnswer>, now: int): seq<Stamp>
    decreases answers
  {
    if answers == [] then log
    else AcceptStamped(AcceptOne(p, cfg, answers[0], now),
                       if TakenOn(p, cfg, answers[0]) then log + [Stamp(p.nextId, now)] else log,
                       cfg, answers[1..], now)
  }

  function Stamped(p: Proxy, log: seq<Stamp>, cfg: Config, a: Act): seq<Stamp> {
    match a
    case DoAccept(answers, now) => AcceptStamped(p, log, cfg, answers, now)
    case DoEvent(fd, _, _, now) =>
      if Target(p, fd) < |p.sessions| then log + [Stamp(p.sessions[Target(p, fd)].id, now)] else log
    case _ => log
  }

  function StampedRun(p: Proxy, log: seq<Stamp>, cfg: Config, acts: seq<Act>, listenFd: int): seq<Stamp>
    requires PossibleRun(p, cfg, acts, listenFd)
    decreases acts
  {
    if acts == [] then log
    else StampedRun(Next(p, cfg, acts[0], listenFd), Stamped(p, log, cfg, acts[0]), cfg, acts[1..], listenFd)
  }

  lemma StampNew(log: seq<Stamp>, id: nat, time: int, other: nat)
    ensures Known(log + [Stamp(id, time)], id) && Latest(log + [Stamp(id, time)], id) == time
    ensures other != id ==> Latest(log + [Stamp(id, time)], other) == Latest(log, other)
    ensures Known(log, other) ==> Known(log + [Stamp(id, time)], other)
  {
    var l := log + [Stamp(id, time)];
    assert l[|log|] == Stamp(id, time) && l[..|log|] == log;
    if Known(log, other) {
      var i :| 0 <= i < |log| && log[i].id == other;
      assert l[i].id == other;
    }
  }

  // ----- the log and the sessions agree

  predicate UpToDate(log: seq<Stamp>, s: SessionState) {
    Known(log, s.id) && s.lastActivity == Latest(log, s.id)
  }

  predicate AllUpToDate(log: seq<Stamp>, sessions: seq<SessionState>) {
    forall i :: 0 <= i < |sessions| ==> UpToDate(log, sessions[i])
  }

  lemma StampKeepsOthers(log: seq<Stamp>, sessions: seq<SessionState>, id: nat, time: int)
    requires AllUpToDate(log, sessions) && forall i :: 0 <= i < |sessions| ==> sessions[i].id != id
    ensures AllUpToDate(log + [Stamp(id, time)], sessions)
  {
    hide Known, Latest;
    forall i | 0 <= i < |sessions| ensures UpToDate(log + [Stamp(id, time)], sessions[i]) {
      assert UpToDate(log, sessions[i]);
      StampNew(log, id, time, sessions[i].id);
    }
  }

  lemma NewcomerUpToDate(log: seq<Stamp>, sessions: seq<SessionState>, s: SessionState, now: int)
    requires AllUpToDate(log, sessions) && s.lastActivity == now
    requires forall i :: 0 <= i < |sessions| ==> sessions[i].id != s.id
    ensures AllUpToDate(log + [Stamp(s.id, now)], [s] + sessions)
  {
    hide UpToDate;
    StampKeepsOthers(log, sessions, s.id, now);
    StampedIsUpToDate(log, s, now);
    var l := [s] + sessions;
    forall i | 0 <= i < |l| ensures UpToDate(log + [Stamp(s.id, now)], l[i]) {
      assert i > 0 ==> l[i] == sessions[i - 1];
    }
  }

  lemma StampedIsUpToDate(log: seq<Stamp>, s: SessionState, now: int)
    requires s.lastActivity == now
    ensures UpToDate(log + [Stamp(s.id, now)], s)
  {
    hide Known, Latest;
    StampNew(log, s.id, now, s.id);
  }

  lemma NextIdIsNew(p: Proxy, listenFd: int)
    requires Inv(p, listenFd)
    ensures |p.fds| == FD_CAP && forall i :: 0 <= i < |p.sessions| ==> p.sessions[i].id != p.nextId
  {
    hide AllMapped, AllOwned, AllBuffersOk;
  }

  lemma {:induction false} AcceptAllUpToDate(p: Proxy, log: seq<Stamp>, cfg: Config, answers: seq<AcceptAnswer>,
                                             now: int, listenFd: int)
    requires Inv(p, listenFd) && AnswersFit(p, cfg, answers, now, listenFd) && AllUpToDate(log, p.sessions)
    ensures AllUpToDate(AcceptStamped(p, log, cfg, answers, now), AcceptAll(p, cfg, answers, now).sessions)
    decreases answers
  {
    hide Inv, AcceptOne, AnswerFits, AllUpToDate, TakenOn;
    if answers != [] {
      var a := answers[0];
      NextIdIsNew(p, listenFd);
      AcceptKeepsInv(p, cfg, a, now, listenFd);
      AcceptEffect(p, cfg, a, now, listenFd);
      var s := NewSession(p.nextId, now, a.clientFd, a.upstreamFd);
      var log' := if TakenOn(p, cfg, a) then log + [Stamp(p.nextId, now)] else log;
      if TakenOn(p, cfg, a) {
        NewcomerUpToDate(log, p.sessions, s, now);
      }
      AcceptAllUpToDate(AcceptOne(p, cfg, a, now), log', cfg, answers[1..], now, listenFd);
    }
  }

  lemma TargetUpToDate(log: seq<Stamp>, sessions: seq<SessionState>, i: nat, t: SessionState, now: int, bound: nat)
    requires AllUpToDate(log, sessions) && IdsDistinct(sessions, bound) && i < |sessions|
    requires t.id == sessions[i].id && t.lastActivity == now
    ensures AllUpToDate(log + [Stamp(t.id, now)], sessions[i := t])
    ensures AllUpToDate(log + [Stamp(t.id, now)], sessions[..i] + sessions[i + 1..])
  {
    hide UpToDate;
    var l, r, log' := sessions[i := t], sessions[..i] + sessions[i + 1..], log + [Stamp(t.id, now)];
    StampedIsUpToDate(log, t, now);
    forall k | 0 <= k < |l| ensures UpToDate(log', l[k]) {
      if k != i {
        OtherUpToDate(log, sessions, i, k, now, bound);
      }
    }
    forall k | 0 <= k < |r| ensures UpToDate(log', r[k]) {
      var j := if k < i then k else k + 1;
      assert r[k] == sessions[j];
      OtherUpToDate(log, sessions, i, j, now, bound);
    }
  }

  lemma OtherUpToDate(log: seq<Stamp>, sessions: seq<SessionState>, i: nat, k: nat, now: int, bound: nat)
    requires AllUpToDate(log, sessions) && IdsDistinct(sessions, bound) && i < |sessions| && k < |sessions| && k != i
    ensures UpToDate(log + [Stamp(sessions[i].id, now)], sessions[k])
  {
    hide Known, Latest, IdsDistinct;
    assert UpToDate(log, sessions[k]);
    DistinctAt(sessions, k, i, bound);
    StampNew(log, sessions[i].id, now, sessions[k].id);
  }

  /** The handled session keeps its id and is stamped with the time of the event. */
  lemma HandledStamp(s: SessionState, side: Side, ev: Events, k: Kernel, now: int)
    requires RelayRuns.BothOk(s) && KernelFits(s, side, k)
    ensures var t := HandleIo(s, side, ev, k, now).session;
            t.id == s.id && t.lastActivity == now
  {
    hide HandleIo, RelayRuns.BothOk, KernelFits, RelayRuns.BytesMoved, RelayRuns.ShutInOrder, RelayProgress.MovesBytes,
         RelayProgress.Concludes;
    RelayProgress.EventLaw(s, side, ev, k, now);
    RelayRuns.IoHandled(s, side, ev, k, now);
  }

  /** The list after an event for one of its sessions. */
  predicate ListAfter(sessions: seq<SessionState>, i: nat, t: SessionState, after: seq<SessionState>) {
    i < |sessions| && (after == sessions[i := t] || after == sessions[..i] + sessions[i + 1..])
  }

  lemma ListUpToDate(log: seq<Stamp>, sessions: seq<SessionState>, i: nat, t: SessionState, after: seq<SessionState>,
                     id: nat, now: int, bound: nat)
    requires AllUpToDate(log, sessions) && IdsDistinct(sessions, bound) && ListAfter(sessions, i, t, after)
    requires t.id == id == sessions[i].id && t.lastActivity == now
    ensures AllUpToDate(log + [Stamp(id, now)], after)
  {
    hide AllUpToDate, IdsDistinct;
    TargetUpToDate(log, sessions, i, t, now, bound);
  }

  lemma EventList(p: Proxy, fd: int, ev: Events, k: Kernel, now: int, listenFd: int)
    requires Inv(p, listenFd) && Target(p, fd) < |p.sessions|
    requires KernelFits(p.sessions[Target(p, fd)], p.fds[fd].side, k)
    ensures var s, side := p.sessions[Target(p, fd)], p.fds[fd].side;
            ListAfter(p.sessions, Target(p, fd), HandleIo(s, side, ev, k, now).session, Dispatched(p, fd, ev, k, now).sessions)
  {
    hide Inv, HandleIo, KernelFits, Dispatched, Cleared;
    EventTouchesOne(p, fd, ev, k, now, listenFd);
  }

  lemma EventUpToDate(p: Proxy, log: seq<Stamp>, fd: int, ev: Events, k: Kernel, now: int, listenFd: int)
    requires Inv(p, listenFd) && AllUpToDate(log, p.sessions) && Target(p, fd) < |p.sessions|
    requires KernelFits(p.sessions[Target(p, fd)], p.fds[fd].side, k)
    ensures AllUpToDate(log + [Stamp(p.sessions[Target(p, fd)].id, now)], Dispatched(p, fd, ev, k, now).sessions)
  {
    var i := Target(p, fd);
    var s, side := p.sessions[i], p.fds[fd].side;
    SessionAt(p, listenFd, i);
    EventList(p, fd, ev, k, now, listenFd);
    hide Inv, HandleIo, KernelFits, Dispatched, IdsDistinct, RelayRuns.BothOk, AllUpToDate, Target, ListAfter;
    HandledStamp(s, side, ev, k, now);
    ListUpToDate(log, p.sessions, i, HandleIo(s, side, ev, k, now).session, Dispatched(p, fd, ev, k, now).sessions,
                 s.id, now, p.nextId);
  }

  lemma SessionAt(p: Proxy, listenFd: int, i: nat)
    requires Inv(p, listenFd) && i < |p.sessions|
    ensures RelayRuns.BothOk(p.sessions[i]) && IdsDistinct(p.sessions, p.nextId)
  {
    hide RelayRuns.BothOk, AllOwned, AllMapped;
  }

  /** What a sweep of sessions with these stamps has to leave. */
  function Recent(sessions: seq<SessionState>, log: seq<Stamp>, timeout: int, now: int): seq<SessionState> {
    if sessions == [] then []
    else (if now - Latest(log, sessions[0].id) > timeout then [] else [sessions[0]])
         + Recent(sessions[1..], log, timeout, now)
  }

  lemma {:induction false} BusyIsRecent(sessions: seq<SessionState>, log: seq<Stamp>, cfg: Config, now: int)
    requires AllUpToDate(log, sessions)
    ensures Busy(sessions, cfg, now) == Recent(sessions, log, cfg.idleTimeout, now)
    ensures AllUpToDate(log, Busy(sessions, cfg, now))
  {
    hide Known, Latest;
    if sessions != [] {
      var rest := sessions[1..];
      assert AllUpToDate(log, rest);
      assert UpToDate(log, sessions[0]);
      BusyIsRecent(rest, log, cfg, now);
      hide UpToDate;
      var l := [sessions[0]] + Busy(rest, cfg, now);
      assert forall i :: 0 < i < |l| ==> l[i] == Busy(rest, cfg, now)[i - 1];
      assert AllUpToDate(log, l);
      assert [] + Busy(rest, cfg, now) == Busy(rest, cfg, now);
    }
  }

  lemma NobodyUpToDate(log: seq<Stamp>)
    ensures AllUpToDate(log, [])
  {
  }

  lemma EventStep(p: Proxy, log: seq<Stamp>, fd: int, ev: Events, k: Kernel, now: int, listenFd: int)
    requires Inv(p, listenFd) && AllUpToDate(log, p.sessions)
    requires Target(p, fd) < |p.sessions| ==> KernelFits(p.sessions[Target(p, fd)], p.fds[fd].side, k)
    ensures AllUpToDate(if Target(p, fd) < |p.sessions| then log + [Stamp(p.sessions[Target(p, fd)].id, now)] else log,
                        Dispatched(p, fd, ev, k, now).sessions)
  {
    hide Inv, AllUpToDate, KernelFits, HandleIo, Destroyed;
    if Target(p, fd) < |p.sessions| {
      EventUpToDate(p, log, fd, ev, k, now, listenFd);
    }
  }

  lemma NextUpToDate(p: Proxy, log: seq<Stamp>, cfg: Config, a: Act, listenFd: int)
    requires Inv(p, listenFd) && Possible(p, cfg, a, listenFd) && AllUpToDate(log, p.sessions)
    ensures AllUpToDate(Stamped(p, log, cfg, a), Next(p, cfg, a, listenFd).sessions)
  {
    hide Inv, AcceptAll, Dispatched, Swept, AllClosed, AnswersFit, Target, AllUpToDate, KernelFits;
    match a {
      case DoAccept(answers, now) => AcceptAllUpToDate(p, log, cfg, answers, now, listenFd);
      case DoEvent(fd, ev, k, now) => EventStep(p, log, fd, ev, k, now, listenFd);
      case DoSweep(now) =>
        assert [] + p.sessions == p.sessions && [] + Busy(p.sessions, cfg, now) == Busy(p.sessions, cfg, now);
        SweepKeepsBusy(p, [], p.sessions, cfg, now, listenFd);
        BusyIsRecent(p.sessions, log, cfg, now);
      case DoCloseAll =>
        CloseAllEmpties(p, listenFd);
        NobodyUpToDate(log);
    }
  }

  lemma {:induction false} RunUpToDate(p: Proxy, log: seq<Stamp>, cfg: Config, acts: seq<Act>, listenFd: int)
    requires Inv(p, listenFd) && Capped(p, cfg) && PossibleRun(p, cfg, acts, listenFd) && AllUpToDate(log, p.sessions)
    ensures AllUpToDate(StampedRun(p, log, cfg, acts, listenFd), Run(p, cfg, acts, listenFd).sessions)
    decreases acts
  {
    hide Inv, Capped, Next, Possible, Stamped, AllUpToDate;
    if acts != [] {
      NextKeepsInv(p, cfg, acts[0], listenFd);
      NextUpToDate(p, log, cfg, acts[0], listenFd);
      RunUpToDate(Next(p, cfg, acts[0], listenFd), Stamped(p, log, cfg, acts[0]), cfg, acts[1..], listenFd);
    }
  }

  lemma RecentMembers(sessions: seq<SessionState>, log: seq<Stamp>, timeout: int, now: int)
    requires AllUpToDate(log, sessions)
    ensures forall s :: s in sessions ==>
              Known(log, s.id) && (s !in Recent(sessions, log, timeout, now) <==> now - Latest(log, s.id) > timeout)
  {
    hide Recent, Known, Latest;
    forall s | s in sessions
      ensures Known(log, s.id)
      ensures s in Recent(sessions, log, timeout, now) <==> now - Latest(log, s.id) <= timeout
    {
      assert UpToDate(log, s);
      RecentHas(sessions, log, timeout, now, s);
    }
  }

  /** A sweep of a proxy whose sessions the log describes. */
  lemma SweepIs(p: Proxy, log: seq<Stamp>, cfg: Config, now: int, listenFd: int)
    requires Inv(p, listenFd) && AllUpToDate(log, p.sessions)
    ensures var q := Swept(p, p.sessions, cfg, now);
            && q.sessions == Recent(p.sessions, log, cfg.idleTimeout, now)
            && q.counters.idleKills == p.counters.idleKills + |p.sessions| - |q.sessions|
  {
    hide Inv, Swept, AllUpToDate, Recent, Busy;
    assert [] + p.sessions == p.sessions && [] + Busy(p.sessions, cfg, now) == Busy(p.sessions, cfg, now);
    SweepKeepsBusy(p, [], p.sessions, cfg, now, listenFd);
    BusyIsRecent(p.sessions, log, cfg, now);
  }

  /** After any run a sweep removes a listed session if and only if more than the timeout has passed since
      it was accepted or an event of it was last handled; the others stay in order, and the removed ones
      are counted. */
  lemma SweepFollowsHistory(listenFd: int, cfg: Config, acts: seq<Act>, now: int)
    requires 0 <= listenFd < FD_CAP && PossibleRun(Started(listenFd), cfg, acts, listenFd)
    ensures var p := Run(Started(listenFd), cfg, acts, listenFd);
            var log := StampedRun(Started(listenFd), [], cfg, acts, listenFd);
            var q := Next(p, cfg, DoSweep(now), listenFd);
            && q.sessions == Recent(p.sessions, log, cfg.idleTimeout, now)
            && q.counters.idleKills == p.counters.idleKills + |p.sessions| - |q.sessions|
            && forall s :: s in p.sessions ==>
                 Known(log, s.id) && (s !in q.sessions <==> now - Latest(log, s.id) > cfg.idleTimeout)
  {
    StartInv(listenFd);
    StartsEmpty(listenFd);
    hide Possible, Started, Run, StampedRun, Inv, Swept, Stamped, AllUpToDate, Recent, Known, Latest;
    NobodyUpToDate([]);
    RunKeepsInv(Started(listenFd), cfg, acts, listenFd);
    RunUpToDate(Started(listenFd), [], cfg, acts, listenFd);
    var p := Run(Started(listenFd), cfg, acts, listenFd);
    var log := StampedRun(Started(listenFd), [], cfg, acts, listenFd);
    SweepIs(p, log, cfg, now, listenFd);
    RecentMembers(p.sessions, log, cfg.idleTimeout, now);
  }

  lemma {:induction false} RecentHas(sessions: seq<SessionState>, log: seq<Stamp>, timeout: int, now: int, s: SessionState)
    requires s in sessions
    ensures s in Recent(sessions, log, timeout, now) <==> now - Latest(log, s.id) <= timeout
  {
    hide Latest;
    if s in sessions[1..] {
      RecentHas(sessions[1..], log, timeout, now, s);
    } else {
      RecentOnly(sessions[1..], log, timeout, now, s);
    }
  }

  lemma {:induction false} RecentOnly(sessions: seq<SessionState>, log: seq<Stamp>, timeout: int, now: int, s: SessionState)
    requires s !in sessions
    ensures s !in Recent(sessions, log, timeout, now)
  {
    hide Latest;
    if sessions != [] {
      RecentOnly(sessions[1..], log, timeout, now, s);
    }
  }

  lemma StartsEmpty(listenFd: int)
    requires 0 <= listenFd < FD_CAP
    ensures Started(listenFd).sessions == [] && Started(listenFd).counters.active == 0
  {
  }
}
