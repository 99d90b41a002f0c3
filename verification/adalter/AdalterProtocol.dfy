/** Writers, readers and the one recompute work item of simplex_adalter_kmod.c, as interleaved steps
    under one lock. A store, a copy of the report and a recompute each take several steps, so that only
    the lock keeps them whole. */
module AdalterProtocol {
  import opened FixedPoint
  import opened LadderSums
  import opened AdalterLadder
  import opened AdalterCode

  type Pos = n: nat | 0 < n witness 1

  /** What put a version into place: module init, or a caller's store. */
  datatype Cause = AtInit | By(w: Write)

  /** Where a caller is. `ver` numbers the version it put into place, `inst` the run of the work item it
      asked for, `target` the run its flush waits for. */
  datatype Pc =
    | Idle
    | Entered(w: Write)                                         // holds the lock, about to store
    | Storing(w: Write)                                         // holds the lock, half-way through
    | Stored(ver: nat, cause: Cause)                            // holds the lock, has stored
    | Written(ver: nat, cause: Cause)                           // has released the lock, not yet queued
    | Queued(ver: nat, cause: Cause, inst: nat)                 // queue_work has returned
    | Flushing(ver: nat, cause: Cause, inst: nat, target: nat)  // inside flush_work
    | Reading                                                   // GET_REPORT, holds the lock
    | HalfRead(head: Report)                                    // holds the lock, levels not yet copied
    | Got(copy: Report)                                         // has released the lock

  datatype Worker =
    | Resting
    | Begun                // the work function has been entered
    // holds the lock, `i` levels filled; counts and running sums are its locals
    | Filling(levels: Pos, nodes: Pos, i: nat, acc: Totals)
    // the same, `n` nodes into level `i`
    | Summing(levels: Pos, nodes: Pos, i: nat, acc: Totals, levelScalar: int, n: nat, sum: Totals)
    | Released             // has unlocked, about to return

  datatype Lock = Free | ByWorker | ByCaller(t: nat)

  datatype World = World(
    cfg: Cfg, base: Base, report: Report,
    lock: Lock, callers: seq<Pc>, worker: Worker,
    // runs of the work item: asked for, begun, returned; one is pending when queued > begun
    queued: nat, begun: nat, returned: nat,
    // every (cfg, base) that was completely stored, the newest last, and which of them was last recomputed
    history: seq<(Cfg, Base)>, seen: int)

  datatype Act =
    | Enter(t: nat, w: Write)
    | Tear(t: nat)
    | Store(t: nat)
    | Unlock(t: nat)
    | Queue(t: nat)
    | Flush(t: nat)
    | Return(t: nat)
    | EnterRead(t: nat)
    | CopyHead(t: nat)
    | FinishRead(t: nat)
    | Deliver(t: nat)
    | WorkBegin
    | WorkLock
    | WorkLevel
    | WorkNode
    | WorkFill
    | WorkUnlock
    | WorkReturn

  /** When the scheduler may take a step. An unaccepted SET_CFG never enters. */
  predicate Enabled(s: World, a: Act) {
    match a
    case Enter(t, w) => t < |s.callers| && s.callers[t].Idle? && s.lock == Free && Accepted(w)
    case Tear(t) => t < |s.callers| && s.callers[t].Entered?
    case Store(t) => t < |s.callers| && s.callers[t].Storing?
    case Unlock(t) => t < |s.callers| && s.callers[t].Stored?
    case Queue(t) => t < |s.callers| && s.callers[t].Written?
    case Flush(t) => t < |s.callers| && s.callers[t].Queued?
    case Return(t) => t < |s.callers| && s.callers[t].Flushing? && s.returned >= s.callers[t].target
    case EnterRead(t) => t < |s.callers| && s.callers[t].Idle? && s.lock == Free
    case CopyHead(t) => t < |s.callers| && s.callers[t].Reading?
    case FinishRead(t) => t < |s.callers| && s.callers[t].HalfRead?
    case Deliver(t) => t < |s.callers| && s.callers[t].Got?
    case WorkBegin => s.worker.Resting? && s.queued > s.begun
    case WorkLock => s.worker.Begun? && s.lock == Free
    case WorkLevel => s.worker.Filling? && s.worker.i < s.worker.levels
    case WorkNode => s.worker.Summing? && s.worker.i < s.worker.levels && s.worker.n < s.worker.nodes
    case WorkFill => s.worker.Summing? && s.worker.i < s.worker.levels && s.worker.n == s.worker.nodes
    case WorkUnlock => s.worker.Filling? && s.worker.i == s.worker.levels
    case WorkReturn => s.worker.Released?
  }

  /** A configuration half-way through the structure copy. */
  function HalfCfg(c: Cfg, w: Write): Cfg {
    if w.WriteCfg?
    then c.(version := w.cfg.version, levels := w.cfg.levels, nodes := w.cfg.nodes,
            minRetained := w.cfg.minRetained, maxRetained := w.cfg.maxRetained)
    else c
  }

  /** A base copied but not yet terminated, or with its key cleared but not yet copied. */
  function HalfBase(b: Base, w: Write): Base {
    match w
    case WriteCfg(_) => b
    case WriteBase(nb) => nb
    case WriteKey(_) => b.(key := "")
  }

  /** The report with level slot `i` written. */
  function WithLevel(r: Report, i: nat, l: Level): Report {
    if i < |r.levels| then r.(levels := r.levels[i := l]) else r
  }

  function At(s: World, t: nat, pc: Pc): World
    requires t < |s.callers|
  {
    s.(callers := s.callers[t := pc])
  }

  /** What the reader at `t` ends up with when it copies the levels now. */
  function Copied(s: World, t: nat): Report
    requires t < |s.callers| && s.callers[t].HalfRead?
  {
    s.callers[t].head.(levels := s.report.levels)
  }

  /** One step of a caller. */
  function CallerNext(s: World, a: Act): World
    requires Enabled(s, a)
  {
    match a
    case Enter(t, w) => At(s, t, Entered(w)).(lock := ByCaller(t))
    case Tear(t) =>
      var w := s.callers[t].w;
      At(s, t, Storing(w)).(cfg := HalfCfg(s.cfg, w), base := HalfBase(s.base, w))
    case Store(t) =>
      var w := s.callers[t].w;
      var c, b := StoredCfg(s.cfg, w), StoredBase(s.base, w);
      At(s, t, Stored(|s.history|, By(w))).(cfg := c, base := b, history := s.history + [(c, b)])
    case Unlock(t) => At(s, t, Written(s.callers[t].ver, s.callers[t].cause)).(lock := Free)
    case Queue(t) =>
      // queue_work does nothing when a run is already pending
      var q := if s.queued > s.begun then s.queued else s.queued + 1;
      At(s, t, Queued(s.callers[t].ver, s.callers[t].cause, q)).(queued := q)
    case Flush(t) =>
      // flush_work waits for the last run asked for so far
      At(s, t, Flushing(s.callers[t].ver, s.callers[t].cause, s.callers[t].inst, s.queued))
    case Return(t) => At(s, t, Idle)
    case EnterRead(t) => At(s, t, Reading).(lock := ByCaller(t))
    case CopyHead(t) => At(s, t, HalfRead(s.report.(levels := NoLevels())))
    case FinishRead(t) => At(s, t, Got(Copied(s, t))).(lock := Free)
    case Deliver(t) => At(s, t, Idle)
    case _ => s
  }

  /** One step of the work item. It reads cfg and base afresh for every level and node, and writes one
      level slot at a time. */
  function WorkNext(s: World, a: Act): World
    requires Enabled(s, a)
  {
    var w := s.worker;
    match a
    case WorkBegin => s.(worker := Begun, begun := s.begun + 1)
    case WorkLock =>
      s.(worker := Filling(LevelsOf(s.cfg), NodesOf(s.cfg), 0, NO_TOTALS), lock := ByWorker,
         report := Report(s.base.key, s.base.finalBase, NO_TOTALS, LevelsOf(s.cfg), NodesOf(s.cfg), NoLevels()))
    case WorkLevel =>
      s.(worker := Summing(w.levels, w.nodes, w.i, w.acc, LevelScalar(s.cfg, FibWeight(w.i, w.levels)), 0, NO_TOTALS))
    case WorkNode =>
      var share := ShareOf(s.cfg, s.base, w.nodes, FibWeight(w.i, w.levels), w.levelScalar, w.i, w.n);
      s.(worker := w.(n := w.n + 1, sum := AddShare(w.sum, share)))
    case WorkFill =>
      var level := LevelFrom(w.i, Fib(w.i + 1), FibWeight(w.i, w.levels), Averages(Word32, w.sum, w.nodes));
      s.(worker := Filling(w.levels, w.nodes, w.i + 1, AddLevel(w.acc, level)), report := WithLevel(s.report, w.i, level))
    case WorkUnlock =>
      s.(worker := Released, lock := Free, report := s.report.(averages := Averages(Word32, w.acc, w.levels)),
         seen := |s.history| - 1)
    case WorkReturn => s.(worker := Resting, returned := s.returned + 1)
    case _ => s
  }

  predicate ByWork(a: Act) {
    a.WorkBegin? || a.WorkLock? || a.WorkLevel? || a.WorkNode? || a.WorkFill? || a.WorkUnlock? || a.WorkReturn?
  }

  function Next(s: World, a: Act): World
    requires Enabled(s, a)
  {
    if ByWork(a) then WorkNext(s, a) else CallerNext(s, a)
  }

  /** Module init has filled in version 0, zeroed the report, and is about to queue the first run. */
  function Boot(c: Cfg, b: Base, callers: nat): World {
    World(c, b, NO_REPORT, Free, [Written(0, AtInit)] + seq(callers, _ => Idle), Resting, 0, 0, 0, [(c, b)], -1)
  }

  // ----- the invariant

  /** How many runs have finished their recompute. */
  function Computed(s: World): int {
    if s.worker.Resting? || s.worker.Released? then s.begun else s.begun - 1
  }

  predicate RunsOk(s: World) {
    && s.begun <= s.queued <= s.begun + 1
    && s.begun == (if s.worker.Resting? then s.returned else s.returned + 1)
  }

  predicate HoldsLock(pc: Pc) {
    pc.Entered? || pc.Storing? || pc.Stored? || pc.Reading? || pc.HalfRead?
  }

  predicate Computing(w: Worker) {
    w.Filling? || w.Summing?
  }

  /** At most one holder, and everyone inside a critical section is it. */
  predicate LockOk(s: World) {
    && (s.lock == ByWorker <==> Computing(s.worker))
    && (forall t :: 0 <= t < |s.callers| ==> (HoldsLock(s.callers[t]) <==> s.lock == ByCaller(t)))
    && (s.lock.ByCaller? ==> s.lock.t < |s.callers|)
  }

  /** The report of version `k`; before the first recompute, all zero. */
  function VersionReport(history: seq<(Cfg, Base)>, k: int): Report
    requires k < |history|
  {
    if k < 0 then NO_REPORT else ReportOf(history[k].0, history[k].1)
  }

  /** The configuration and base in place are the newest version, but for a store under way. */
  predicate HistoryOk(s: World) {
    && |s.history| > 0 && -1 <= s.seen < |s.history|
    && var (c, b) := s.history[|s.history| - 1];
       if s.lock.ByCaller? && s.lock.t < |s.callers| && s.callers[s.lock.t].Storing?
       then s.cfg == HalfCfg(c, s.callers[s.lock.t].w) && s.base == HalfBase(b, s.callers[s.lock.t].w)
       else s.cfg == c && s.base == b
  }

  /** While the worker computes, all it has so far is of the cfg and base in place; at all other times
      the report is that of the version last recomputed. */
  predicate WorkOk(s: World) {
    match s.worker
    case Filling(levels, nodes, i, acc) =>
      && levels == LevelsOf(s.cfg) && nodes == NodesOf(s.cfg) && i <= levels
      && acc == LevelTotals(s.cfg, s.base, i) && s.report == Partial(s.cfg, s.base, i)
    case Summing(levels, nodes, i, acc, levelScalar, n, sum) =>
      && levels == LevelsOf(s.cfg) && nodes == NodesOf(s.cfg) && i < levels && n <= nodes
      && acc == LevelTotals(s.cfg, s.base, i) && s.report == Partial(s.cfg, s.base, i)
      && levelScalar == LevelScalar(s.cfg, FibWeight(i, levels)) && sum == NodeTotals(s.cfg, s.base, i, n)
    case _ =>
      s.seen < |s.history| && s.report == VersionReport(s.history, s.seen)
  }

  /** A half-made copy agrees with the report. */
  predicate ReadersOk(s: World) {
    forall t :: 0 <= t < |s.callers| && s.callers[t].HalfRead? ==> s.callers[t].head == s.report.(levels := NoLevels())
  }

  /** Version `ver` is what `cause` made of the version before it. */
  predicate Made(history: seq<(Cfg, Base)>, ver: nat, cause: Cause) {
    && ver < |history|
    && match cause
       case AtInit => ver == 0
       case By(w) =>
         0 < ver && history[ver] == (StoredCfg(history[ver - 1].0, w), StoredBase(history[ver - 1].1, w))
  }

  /** A caller past its store: once the run it asked for has recomputed, its store has been seen. */
  predicate CallerOk(s: World, pc: Pc) {
    match pc
    case Stored(ver, cause) => Made(s.history, ver, cause)
    case Written(ver, cause) => Made(s.history, ver, cause)
    case Queued(ver, cause, inst) =>
      Made(s.history, ver, cause) && inst <= s.queued && (Computed(s) >= inst ==> s.seen >= ver)
    case Flushing(ver, cause, inst, target) =>
      Made(s.history, ver, cause) && inst <= target <= s.queued && (Computed(s) >= inst ==> s.seen >= ver)
    case _ => true
  }

  predicate CallersOk(s: World) {
    forall t :: 0 <= t < |s.callers| ==> CallerOk(s, s.callers[t])
  }

  predicate OnItsWay(pc: Pc) {
    pc.Storing? || pc.Stored? || pc.Written?
  }

  /** The newest version has been seen, or a run that will see it is pending or under way, or the caller
      that stored it has yet to queue. */
  predicate Fresh(s: World) {
    || s.seen == |s.history| - 1
    || s.queued > Computed(s)
    || exists t :: 0 <= t < |s.callers| && OnItsWay(s.callers[t])
  }

  predicate Inv(s: World) {
    RunsOk(s) && LockOk(s) && HistoryOk(s) && WorkOk(s) && ReadersOk(s) && CallersOk(s) && Fresh(s)
  }

  lemma BootInv(c: Cfg, b: Base, n: nat)
    ensures Inv(Boot(c, b, n))
  {
    hide ReportOf, Partial;
    var s := Boot(c, b, n);
    assert OnItsWay(s.callers[0]);
  }

  // ----- every step keeps it

  lemma StepKeepsRuns(s: World, a: Act)
    requires Inv(s) && Enabled(s, a)
    ensures RunsOk(Next(s, a))
    ensures Next(s, a).seen >= s.seen && Next(s, a).queued >= s.queued && |Next(s, a).callers| == |s.callers|
    ensures s.history <= Next(s, a).history
    ensures Computed(Next(s, a)) == Computed(s) || (a.WorkUnlock? && Computed(Next(s, a)) == Computed(s) + 1)
  {
    hide WorkOk, ReadersOk, CallersOk, Fresh, LockOk, StoredCfg, StoredBase;
  }

  lemma StepKeepsLock(s: World, a: Act)
    requires Inv(s) && Enabled(s, a)
    ensures LockOk(Next(s, a))
  {
    hide WorkOk, ReadersOk, CallersOk, Fresh, RunsOk, HistoryOk, StoredCfg, StoredBase;
  }

  /** A store that overwrites its half-way state leaves what a store in one piece would. */
  lemma StoreCompletes(c: Cfg, b: Base, w: Write)
    ensures StoredCfg(HalfCfg(c, w), w) == StoredCfg(c, w)
    ensures StoredBase(HalfBase(b, w), w) == StoredBase(b, w)
  {
  }

  lemma StepKeepsHistory(s: World, a: Act)
    requires Inv(s) && Enabled(s, a)
    ensures HistoryOk(Next(s, a))
  {
    hide WorkOk, ReadersOk, CallersOk, Fresh, RunsOk, StoredCfg, StoredBase, HalfCfg, HalfBase;
  }

  /** The lock keeps callers from changing anything a recompute under way has read or written. */
  lemma CallerKeepsWork(s: World, a: Act)
    requires Inv(s) && Enabled(s, a) && !ByWork(a)
    ensures Computing(s.worker) ==>
              CallerNext(s, a).cfg == s.cfg && CallerNext(s, a).base == s.base && CallerNext(s, a).report == s.report
    ensures CallerNext(s, a).worker == s.worker && CallerNext(s, a).report == s.report && CallerNext(s, a).seen == s.seen
  {
    hide WorkOk, ReadersOk, CallersOk, Fresh, RunsOk, HistoryOk, StoredCfg, StoredBase;
  }

  lemma SameVersionReport(h: seq<(Cfg, Base)>, h': seq<(Cfg, Base)>, k: int)
    requires h <= h' && k < |h|
    ensures VersionReport(h, k) == VersionReport(h', k)
  {
    hide ReportOf;
  }

  lemma WorkStepOk(s: World, a: Act)
    requires Inv(s) && Enabled(s, a) && ByWork(a)
    ensures WorkOk(WorkNext(s, a))
  {
    hide LevelsOf, NodesOf, LevelTotals, NodeTotals, LevelSlots, ShareOf, LevelScalar, Fib, FibWeight, Mips, Averages,
         RunsOk, LockOk, ReadersOk, CallersOk, Fresh;
    var w := s.worker;
    match a {
      case WorkLock =>
        NoSlots(s.cfg, s.base);
        LevelTotalsStep(s.cfg, s.base, 0);
      case WorkLevel =>
        NodeTotalsStep(s.cfg, s.base, w.i, 0);
      case WorkNode =>
        NodeTotalsStep(s.cfg, s.base, w.i, w.n + 1);
      case WorkFill =>
        NextSlot(s.cfg, s.base, w.i);
        LevelTotalsStep(s.cfg, s.base, w.i + 1);
      case WorkUnlock =>
        UnlockCompletes(s);
      case _ =>
    }
  }

  /** No store is under way when the worker completes the report, so it is that of the newest version. */
  lemma UnlockCompletes(s: World)
    requires Inv(s) && Enabled(s, WorkUnlock)
    ensures WorkOk(WorkNext(s, WorkUnlock))
  {
    hide LevelsOf, NodesOf, LevelTotals, LevelSlots, Averages, RunsOk, ReadersOk, CallersOk, Fresh, HalfCfg, HalfBase;
  }

  lemma StepKeepsWork(s: World, a: Act)
    requires Inv(s) && Enabled(s, a)
    ensures WorkOk(Next(s, a))
  {
    if ByWork(a) {
      hide Inv, WorkOk, WorkNext;
      WorkStepOk(s, a);
    } else {
      CallerKeepsWork(s, a);
      StepKeepsRuns(s, a);
      hide CallerNext, LockOk, ReadersOk, CallersOk, Fresh, RunsOk, HistoryOk, LevelsOf, NodesOf, LevelTotals, NodeTotals,
           Partial, VersionReport, LevelScalar, FibWeight;
      if !Computing(s.worker) {
        SameVersionReport(s.history, Next(s, a).history, s.seen);
      }
    }
  }

  /** The lock keeps the worker from changing what a reader has begun to copy. */
  lemma StepKeepsReaders(s: World, a: Act)
    requires Inv(s) && Enabled(s, a)
    ensures ReadersOk(Next(s, a))
  {
    hide WorkOk, CallersOk, Fresh, RunsOk, HistoryOk, StoredCfg, StoredBase, HalfCfg, HalfBase, LevelsOf, NodesOf,
         ShareOf, LevelFrom;
  }

  lemma MadeStays(h: seq<(Cfg, Base)>, h': seq<(Cfg, Base)>, ver: nat, cause: Cause)
    requires h <= h' && Made(h, ver, cause)
    ensures Made(h', ver, cause)
  {
    hide StoredCfg, StoredBase;
  }

  /** Nothing a step does can make another caller's standing worse. */
  lemma OthersStay(s: World, s': World, pc: Pc)
    requires CallerOk(s, pc)
    requires s.history <= s'.history && s.queued <= s'.queued && s.seen <= s'.seen
    requires Computed(s') > Computed(s) ==> s'.seen == |s'.history| - 1
    requires Computed(s') >= Computed(s)
    ensures CallerOk(s', pc)
  {
    hide Computed, StoredCfg, StoredBase;
  }

  lemma StepKeepsCallers(s: World, a: Act)
    requires Inv(s) && Enabled(s, a)
    ensures CallersOk(Next(s, a))
  {
    StepKeepsRuns(s, a);
    StepSees(s, a);
    var s' := Next(s, a);
    hide Next, LockOk, WorkOk, HistoryOk, ReadersOk, Fresh, CallerOk, Computed, Enabled;
    forall t | 0 <= t < |s'.callers| ensures CallerOk(s', s'.callers[t]) {
      assert CallerOk(s, s.callers[t]);
      if s'.callers[t] == s.callers[t] {
        OthersStay(s, s', s.callers[t]);
      } else {
        MoverStays(s, a, t);
      }
    }
  }

  lemma StepSees(s: World, a: Act)
    requires Inv(s) && Enabled(s, a)
    ensures a.WorkUnlock? ==> Next(s, a).seen == |Next(s, a).history| - 1
  {
    hide Inv;
  }

  lemma WorkKeepsCallers(s: World, a: Act)
    requires Enabled(s, a)
    ensures WorkNext(s, a).callers == s.callers
  {
    hide LevelsOf, NodesOf, ShareOf, LevelFrom, WithLevel;
  }

  /** The caller that takes the step. */
  lemma MoverStays(s: World, a: Act, t: nat)
    requires Inv(s) && Enabled(s, a) && t < |s.callers| == |Next(s, a).callers|
    requires Next(s, a).callers[t] != s.callers[t]
    ensures CallerOk(Next(s, a), Next(s, a).callers[t])
  {
    hide WorkOk, ReadersOk, Fresh, WorkNext, StoredCfg, StoredBase, HalfCfg, HalfBase;
    WorkKeepsCallers(s, a);
    assert CallerOk(s, s.callers[t]);
    if a.Store? {
      var (c, b) := s.history[|s.history| - 1];
      StoreCompletes(c, b, s.callers[t].w);
    }
  }

  /** A caller on its way that stays where it is keeps the world fresh. */
  lemma WaiterStays(s: World, s': World)
    requires Fresh(s) && !(s.seen == |s.history| - 1) && !(s.queued > Computed(s))
    requires s'.callers == s.callers
    ensures Fresh(s')
  {
    var t :| 0 <= t < |s.callers| && OnItsWay(s.callers[t]);
    assert OnItsWay(s'.callers[t]);
  }

  lemma WorkKeepsFresh(s: World, a: Act)
    requires Inv(s) && Enabled(s, a) && ByWork(a)
    ensures Fresh(WorkNext(s, a))
  {
    var s' := WorkNext(s, a);
    WorkKeepsCallers(s, a);
    WorkCounts(s, a);
    hide WorkNext, LockOk, CallersOk, WorkOk, HistoryOk, ReadersOk, RunsOk, Computed, OnItsWay;
    if !a.WorkUnlock? && s.seen != |s.history| - 1 && s.queued <= Computed(s) {
      WaiterStays(s, s');
    }
  }

  lemma WorkCounts(s: World, a: Act)
    requires Enabled(s, a) && ByWork(a)
    ensures var s' := WorkNext(s, a);
            && s'.history == s.history && s'.queued == s.queued
            && (a.WorkUnlock? ==> s'.seen == |s.history| - 1)
            && (!a.WorkUnlock? ==> s'.seen == s.seen && Computed(s') == Computed(s))
  {
    hide LevelsOf, NodesOf, ShareOf, LevelFrom, WithLevel;
  }

  lemma CallerKeepsFresh(s: World, a: Act)
    requires Inv(s) && Enabled(s, a)
    ensures Fresh(CallerNext(s, a))
  {
    hide LockOk, CallersOk, WorkOk, HistoryOk, ReadersOk, StoredCfg, StoredBase, HalfCfg, HalfBase;
    var s' := CallerNext(s, a);
    match a {
      case Tear(t) => assert OnItsWay(s'.callers[t]);
      case Store(t) => assert OnItsWay(s'.callers[t]);
      case Unlock(t) => assert OnItsWay(s'.callers[t]);
      case Queue(t) => assert s'.queued > Computed(s');
      case _ =>
        if t :| 0 <= t < |s.callers| && OnItsWay(s.callers[t]) {
          assert OnItsWay(s'.callers[t]);
        }
    }
  }

  lemma StepKeepsFresh(s: World, a: Act)
    requires Inv(s) && Enabled(s, a)
    ensures Fresh(Next(s, a))
  {
    hide Inv, Enabled, Fresh, WorkNext, CallerNext;
    if ByWork(a) {
      WorkKeepsFresh(s, a);
    } else {
      CallerKeepsFresh(s, a);
    }
  }

  lemma StepKeepsInv(s: World, a: Act)
    requires Inv(s) && Enabled(s, a)
    ensures Inv(Next(s, a))
  {
    hide RunsOk, LockOk, HistoryOk, WorkOk, ReadersOk, CallersOk, Fresh, Next, Enabled;
    StepKeepsRuns(s, a);
    StepKeepsLock(s, a);
    StepKeepsHistory(s, a);
    StepKeepsWork(s, a);
    StepKeepsReaders(s, a);
    StepKeepsCallers(s, a);
    StepKeepsFresh(s, a);
  }

  // ----- runs

  predicate PossibleRun(s: World, acts: seq<Act>)
    decreases acts
  {
    acts == [] || (Enabled(s, acts[0]) && PossibleRun(Next(s, acts[0]), acts[1..]))
  }

  function Run(s: World, acts: seq<Act>): World
    requires PossibleRun(s, acts)
    decreases acts
  {
    if acts == [] then s else Run(Next(s, acts[0]), acts[1..])
  }

  lemma {:induction false} RunKeepsInv(s: World, acts: seq<Act>)
    requires Inv(s) && PossibleRun(s, acts)
    ensures Inv(Run(s, acts)) && Run(s, acts).seen >= s.seen && s.history <= Run(s, acts).history
    decreases acts
  {
    hide Inv, Next, Enabled;
    if acts != [] {
      StepKeepsInv(s, acts[0]);
      StepKeepsRuns(s, acts[0]);
      RunKeepsInv(Next(s, acts[0]), acts[1..]);
    }
  }

  /** The report is that of some version from `low` on. */
  predicate Shows(r: Report, history: seq<(Cfg, Base)>, low: int) {
    exists k :: low <= k < |history| && r == VersionReport(history, k)
  }

  /** What a reader copies is the report of the version last recomputed, whole. */
  lemma CopyIsWhole(s: World, t: nat)
    requires Inv(s) && Enabled(s, FinishRead(t))
    ensures -1 <= s.seen < |s.history| && Copied(s, t) == VersionReport(s.history, s.seen)
  {
    hide VersionReport, CallersOk, Fresh, RunsOk, LevelsOf, NodesOf, Partial;
    assert HoldsLock(s.callers[t]);
  }

  /** Every report a reader copies is all-zero or the report of some configuration and base that really
      held, though it is copied and computed in many steps. */
  lemma ReadsAreWhole(c: Cfg, b: Base, n: nat, acts: seq<Act>, t: nat)
    requires PossibleRun(Boot(c, b, n), acts)
    requires Enabled(Run(Boot(c, b, n), acts), FinishRead(t))
    ensures var s := Run(Boot(c, b, n), acts);
            Next(s, FinishRead(t)).callers[t] == Got(Copied(s, t)) && Shows(Copied(s, t), s.history, -1)
  {
    hide Boot, Run, VersionReport, Inv;
    BootInv(c, b, n);
    RunKeepsInv(Boot(c, b, n), acts);
    CopyIsWhole(Run(Boot(c, b, n), acts), t);
  }

  lemma ReturnSees(s: World, t: nat)
    requires Inv(s) && Enabled(s, Return(t))
    ensures Made(s.history, s.callers[t].ver, s.callers[t].cause) && s.callers[t].ver <= s.seen
  {
    hide WorkOk, LockOk, Fresh, ReadersOk, Made;
    assert CallerOk(s, s.callers[t]);
  }

  /** For any interleaving: once a caller's flush can return, its store is a version of the history, and
      every report copied from then on, in any continuation, is of that version or a later one. */
  lemma ReturnHasBeenSeen(c: Cfg, b: Base, n: nat, acts: seq<Act>, t: nat, more: seq<Act>, r: nat)
    requires PossibleRun(Boot(c, b, n), acts)
    requires Enabled(Run(Boot(c, b, n), acts), Return(t))
    requires PossibleRun(Run(Boot(c, b, n), acts), more)
    requires Enabled(Run(Run(Boot(c, b, n), acts), more), FinishRead(r))
    ensures var s := Run(Boot(c, b, n), acts);
            var u := Run(s, more);
            && Made(u.history, s.callers[t].ver, s.callers[t].cause)
            && Shows(Copied(u, r), u.history, s.callers[t].ver)
  {
    hide Boot, Next, Run, Inv, VersionReport, Made;
    BootInv(c, b, n);
    RunKeepsInv(Boot(c, b, n), acts);
    var s := Run(Boot(c, b, n), acts);
    ReturnSees(s, t);
    RunKeepsInv(s, more);
    var u := Run(s, more);
    MadeStays(s.history, u.history, s.callers[t].ver, s.callers[t].cause);
    CopyIsWhole(u, r);
  }

  /** No run is pending or under way and no caller is between the start of its store and its
      queue_work. */
  predicate Quiet(s: World) {
    && s.worker.Resting? && s.queued == s.begun
    && forall t :: 0 <= t < |s.callers| ==> !OnItsWay(s.callers[t])
  }

  /** Whenever all is quiet the report is the ladder of the current configuration and base. */
  lemma QuietIsCurrent(c: Cfg, b: Base, n: nat, acts: seq<Act>)
    requires PossibleRun(Boot(c, b, n), acts) && Quiet(Run(Boot(c, b, n), acts))
    ensures var s := Run(Boot(c, b, n), acts);
            s.report == ReportOf(s.cfg, s.base)
  {
    hide Boot, Next, Run, Inv, Quiet;
    BootInv(c, b, n);
    RunKeepsInv(Boot(c, b, n), acts);
    QuietReport(Run(Boot(c, b, n), acts));
  }

  lemma QuietReport(s: World)
    requires Inv(s) && Quiet(s)
    ensures s.report == ReportOf(s.cfg, s.base)
  {
    hide CallersOk, LockOk, ReadersOk, Partial, ReportOf, HalfCfg, HalfBase;
  }

  /** The first of two reports is of a version no newer than that of the second. */
  predicate InOrder(first: Report, second: Report, history: seq<(Cfg, Base)>) {
    exists j, k ::
      -1 <= j <= k < |history| && first == VersionReport(history, j) && second == VersionReport(history, k)
  }

  /** Of two reports copied in one run, the later one is never of an older version. */
  lemma ReadsAdvance(c: Cfg, b: Base, n: nat, before: seq<Act>, r: nat, between: seq<Act>, q: nat)
    requires PossibleRun(Boot(c, b, n), before)
    requires Enabled(Run(Boot(c, b, n), before), FinishRead(r))
    requires PossibleRun(Run(Boot(c, b, n), before), between)
    requires Enabled(Run(Run(Boot(c, b, n), before), between), FinishRead(q))
    ensures var s := Run(Boot(c, b, n), before);
            var u := Run(s, between);
            InOrder(Copied(s, r), Copied(u, q), u.history)
  {
    hide Boot, Next, Enabled, Run, Inv, VersionReport, Copied;
    BootInv(c, b, n);
    RunKeepsInv(Boot(c, b, n), before);
    var s := Run(Boot(c, b, n), before);
    RunKeepsInv(s, between);
    var u := Run(s, between);
    CopyIsWhole(s, r);
    CopyIsWhole(u, q);
    SameVersionReport(s.history, u.history, s.seen);
  }
}
