/** The recompute of simplex_adalter_kmod.c, which rewrites the report in place, and the three
    critical sections that change what it is computed from. */
module AdalterCode {
  import opened FixedPoint
  import opened LadderSums
  import opened AdalterLadder

  /** What a caller may store: SET_CFG, RUN_BASE, last_key. */
  datatype Write = WriteCfg(cfg: Cfg) | WriteBase(base: Base) | WriteKey(text: string)

  /** SET_CFG is refused for a foreign version or level and node counts out of range. */
  predicate Accepted(w: Write) {
    w.WriteCfg? ==> w.cfg.version == 1 && 1 <= w.cfg.levels <= MAX_LEVELS && 1 <= w.cfg.nodes <= MAX_NODES
  }

  /** A key buffer of 128 bytes keeps 127 characters. */
  function CutKey(k: string): string {
    if |k| < KEY_LEN then k else k[..KEY_LEN - 1]
  }

  /** A key stored through sysfs also loses one newline at its end. */
  function TrimKey(k: string): string {
    var c := CutKey(k);
    if |c| > 0 && c[|c| - 1] == '\n' then c[..|c| - 1] else c
  }

  function StoredCfg(c: Cfg, w: Write): Cfg {
    if w.WriteCfg? then w.cfg else c
  }

  function StoredBase(b: Base, w: Write): Base {
    match w
    case WriteCfg(_) => b
    case WriteBase(nb) => nb.(key := CutKey(nb.key))
    case WriteKey(t) => b.(key := TrimKey(t))
  }

  /** SET_CFG is refused exactly for a version other than 1 or counts outside 1..22 and 1..12, and then the
      counts are used as they are; zero and larger counts mean the maximum. */
  lemma AcceptedConfigs(c: Cfg)
    ensures Accepted(WriteCfg(c)) <==> c.version == 1 && 1 <= c.levels <= 22 && 1 <= c.nodes <= 12
    ensures LevelsOf(c) == (if 1 <= c.levels <= 22 then c.levels else 22)
    ensures NodesOf(c) == (if 1 <= c.nodes <= 12 then c.nodes else 12)
  {
  }

  /** The first 127 characters of a text. */
  predicate IsCut(k: string, text: string) {
    k <= text && |k| == (if |text| <= 127 then |text| else 127)
  }

  /** RUN_BASE replaces the whole base, its key cut to 127 characters; last_key replaces the key alone, cut
      the same way and then less one newline at its end; SET_CFG replaces the configuration alone. */
  lemma StoresChange(c: Cfg, b: Base, w: Write)
    ensures w.WriteCfg? ==> StoredCfg(c, w) == w.cfg && StoredBase(b, w) == b
    ensures w.WriteBase? ==>
              && StoredCfg(c, w) == c && IsCut(StoredBase(b, w).key, w.base.key)
              && StoredBase(b, w) == w.base.(key := StoredBase(b, w).key)
    ensures w.WriteKey? ==>
              && StoredCfg(c, w) == c && StoredBase(b, w) == b.(key := StoredBase(b, w).key)
              && exists k :: IsCut(k, w.text)
                             && StoredBase(b, w).key == (if k != "" && k[|k| - 1] == '\n' then k[..|k| - 1] else k)
  {
    if w.WriteKey? {
      assert IsCut(CutKey(w.text), w.text);
    }
  }

  class Device {
    var cfg: Cfg
    var base: Base
    var report: Report

    constructor (c: Cfg, b: Base)
      ensures cfg == c && base == b && report == NO_REPORT
    {
      cfg, base, report := c, b, NO_REPORT;
    }

    /** What a writer does while it holds the lock. */
    method Store(w: Write) returns (ok: bool)
      modifies this`cfg, this`base
      ensures ok == Accepted(w)
      ensures ok ==> cfg == StoredCfg(old(cfg), w) && base == StoredBase(old(base), w)
      ensures !ok ==> cfg == old(cfg) && base == old(base)
    {
      match w {
        case WriteCfg(c) =>
          if c.version != 1 {
            return false;
          }
          if c.levels == 0 || c.levels > MAX_LEVELS {
            return false;
          }
          if c.nodes == 0 || c.nodes > MAX_NODES {
            return false;
          }
          cfg := c;
        case WriteBase(b) =>
          base := b.(key := CutKey(b.key));
        case WriteKey(t) =>
          var k := CutKey(t);
          if |k| > 0 && k[|k| - 1] == '\n' {
            k := k[..|k| - 1];
          }
          base := base.(key := k);
      }
      return true;
    }

    /** The retained value of one node, step by step. */
    method RetainNode(nodes: nat, levelScalar: int, i: nat, n: nat) returns (v: int)
      requires nodes > 0
      ensures v == Retained(cfg, base, nodes, levelScalar, i, n)
    {
      hide Fit, MulPpm, MulQ16, Clamp;
      var slot := n % 4;
      v := base.retained;
      v := MulQ16(Word32, v, cfg.arm);
      v := MulQ16(Word32, v, cfg.uScalar);
      v := Clamp(v, cfg.minRetained, cfg.maxRetained);
      var add := 10200 + slot * 1275;
      add := MulQ16(Word32, add, cfg.adder);
      v := Clamp(Fit(Word32, v + add), cfg.minRetained, cfg.maxRetained);
      v := MulQ16(Word32, v, cfg.modifier);
      assert v == Lift(cfg, base, slot);
      var nodeScalar := PPM;
      if nodes > 1 {
        nodeScalar := Fit(Word32, PPM - Fit(Word32, n * cfg.nodeGain) / (nodes - 1));
      }
      var phaseScalar := Fit(Word32, Fit(Word32, PPM - Fit(Word32, (i + 1) * cfg.phaseGain) / 100)
                                     - Fit(Word32, n * cfg.phaseGain) / 200);
      v := MulPpm(Word32, v, levelScalar);
      v := MulPpm(Word32, v, nodeScalar);
      v := MulPpm(Word32, v, phaseScalar);
      if cfg.flags % 2 == 1 {
        v := MulPpm(Word32, v, 940000);
      }
      if cfg.flags / 2 % 2 == 1 {
        v := MulPpm(Word32, v, 980000);
      }
      v := Clamp(v, cfg.minRetained, cfg.maxRetained);
    }

    /** The node loop of level `i`. */
    method SumNodes(levels: nat, nodes: nat, i: nat, weight: int) returns (t: Totals)
      requires levels == LevelsOf(cfg) && nodes == NodesOf(cfg) && i < levels && weight == FibWeight(i, levels)
      ensures t == NodeTotals(cfg, base, i, nodes)
    {
      hide NodeTotals, Retained, Cross, Cold, FibWeight, LevelScalar, LevelsOf, NodesOf, MulQ16;
      var levelScalar := LevelScalar(cfg, weight);
      var ret, red, cross, cold, energy := 0, 0, 0, 0, 0;
      NodeTotalsStep(cfg, base, i, 0);
      var n := 0;
      while n < nodes
        invariant n <= nodes
        invariant Totals(ret, red, cross, cold, energy) == NodeTotals(cfg, base, i, n)
      {
        var v := RetainNode(nodes, levelScalar, i, n);
        var crossPpm := Cross(base, weight, n);
        var coldPpm := Cold(base, weight, n);
        var energyPpm := MulQ16(Word32, v, cfg.knot);
        NodeTotalsStep(cfg, base, i, n + 1);
        ret := ret + v;
        red := red + Fit(Word32, PPM - v);
        cross := cross + crossPpm;
        cold := cold + coldPpm;
        energy := energy + energyPpm;
        n := n + 1;
      }
      t := Totals(ret, red, cross, cold, energy);
    }

    /** sa_recompute_locked: the report is zeroed, filled level by level, and completed. */
    method Recompute()
      modifies this`report
      ensures report == ReportOf(cfg, base)
    {
      hide NodeTotals, LevelTotals, Fib, FibTotal, FibWeight, Mips, LevelsOf, NodesOf, LevelSlots;
      report := NO_REPORT;
      report := report.(key := base.key, finalBase := base.finalBase);
      var levels, nodes := LevelsOf(cfg), NodesOf(cfg);
      report := report.(levelCount := levels, nodeCount := nodes);
      var fib, total := FillFib(levels);
      var acc := NO_TOTALS;
      LevelTotalsStep(cfg, base, 0);
      NoSlots(cfg, base);
      var i := 0;
      while i < levels
        invariant i <= levels
        invariant report == Partial(cfg, base, i)
        invariant acc == LevelTotals(cfg, base, i)
      {
        WeightFromTable(fib, total, i, levels);
        var weight := fib[i] * PPM / total;
        var t := SumNodes(levels, nodes, i, weight);
        var level := LevelFrom(i, fib[i], weight, Averages(Word32, t, nodes));
        assert level == LevelOf(cfg, base, i);
        NextSlot(cfg, base, i);
        report := report.(levels := report.levels[i := level]);
        LevelTotalsStep(cfg, base, i + 1);
        acc := AddLevel(acc, level);
        i := i + 1;
      }
      report := report.(averages := Averages(Word32, acc, levels));
    }
  }

  lemma NoSlots(c: Cfg, b: Base)
    ensures LevelSlots(c, b, 0) == NO_REPORT.levels
  {
  }

  lemma NextSlot(c: Cfg, b: Base, i: nat)
    requires i < LevelsOf(c)
    ensures LevelSlots(c, b, i + 1) == LevelSlots(c, b, i)[i := LevelOf(c, b, i)]
  {
    hide LevelOf;
  }

  /** The weight the code divides out of the filled table. */
  lemma WeightFromTable(fib: seq<u32>, total: nat, i: nat, n: nat)
    requires |fib| == 22 && i < n <= 22 && fib[i] == Fib(i + 1) && total == FibTotal(n)
    ensures total > 0 && fib[i] * PPM / total == FibWeight(i, n)
  {
    FibTotalPositive(n);
  }
}
