/** The recompute loops of dawnhex_kmod.c, in 32-bit words, proved against the ladder function. */
module DuoLadderCode {
  import opened FixedPoint
  import opened LadderSums
  import opened DuoLadder

  /** dh_duo_base_retained_ppm_locked */
  method BaseRetained(k: Knobs) returns (base: int)
    ensures base == Base(Word32, k)
  {
    hide MulPpm, Fit, Clamp;
    base := MIN_RETAINED;
    base := Fit(Word32, base + Fit(Word32, 1000000 - k.energy) / 20);
    base := Fit(Word32, base + k.pressure / 25);
    match k.mode {
      case 1 => base := MulPpm(Word32, base, 980000);
      case 2 => base := MulPpm(Word32, base, 1020000);
      case 3 => base := MulPpm(Word32, base, 960000);
      case _ =>
    }
    base := Clamp(base, MIN_RETAINED, MAX_RETAINED);
  }

  /** The retained value of one node, step by step. */
  method RetainNode(k: Knobs, base: int, weight: int, levelScalar: int, i: nat, n: nat) returns (v: int)
    requires levelScalar == LevelScalar(Word32, weight)
    ensures v == Retained(Word32, k, base, weight, i, n)
  {
    hide Fit, MulPpm, MulQ16, Clamp;
    var slot := n % 4;
    v := base;
    v := MulQ16(Word32, v, ARM);
    v := MulQ16(Word32, v, U_SCALAR);
    v := Clamp(v, MIN_RETAINED, MAX_RETAINED);
    var add := 10200 + slot * 1275;
    add := MulQ16(Word32, add, ADDER);
    v := Clamp(Fit(Word32, v + add), MIN_RETAINED, MAX_RETAINED);
    v := MulQ16(Word32, v, MODIFIER);
    assert v == Lift(Word32, base, slot);
    var nodeScalar := Fit(Word32, PPM - n * NODE_GAIN / 11);
    var phaseScalar := Fit(Word32, Fit(Word32, PPM - (i + 1) * PHASE_GAIN / 100) - n * PHASE_GAIN / 200);
    v := MulPpm(Word32, v, levelScalar);
    v := MulPpm(Word32, v, nodeScalar);
    v := MulPpm(Word32, v, phaseScalar);
    v := MulPpm(Word32, v, Clamp(k.refraction, 900000, 1200000));
    v := MulPpm(Word32, v, Clamp(k.quotient, 800000, 1250000));
    if k.mode == CROSSED {
      v := MulPpm(Word32, v, 970000);
    }
    v := MulPpm(Word32, v, 940000);
    v := MulPpm(Word32, v, 980000);
    v := Clamp(v, MIN_RETAINED, MAX_RETAINED);
  }

  /** The node loop of level `i`. */
  method SumNodes(k: Knobs, base: int, i: nat, weight: int) returns (t: Totals)
    requires i < LEVELS && weight == FibWeight(i, LEVELS)
    ensures t == NodeTotals(Word32, k, base, i, NODES)
  {
    hide NodeTotals, Retained, Cross, Cold, NodeEnergy, FibWeight, LevelScalar;
    var levelScalar := LevelScalar(Word32, weight);
    var ret, red, cross, cold, energy := 0, 0, 0, 0, 0;
    NodeTotalsStep(Word32, k, base, i, 0);
    var n := 0;
    while n < NODES
      invariant n <= NODES
      invariant Totals(ret, red, cross, cold, energy) == NodeTotals(Word32, k, base, i, n)
    {
      var v := RetainNode(k, base, weight, levelScalar, i, n);
      var crossPpm := Cross(Word32, k, n);
      var coldPpm := Cold(Word32, k, weight, n);
      var energyPpm := NodeEnergy(Word32, v);
      NodeTotalsStep(Word32, k, base, i, n + 1);
      ret := ret + v;
      red := red + Fit(Word32, PPM - v);
      cross := cross + crossPpm;
      cold := cold + coldPpm;
      energy := energy + energyPpm;
      n := n + 1;
    }
    t := Totals(ret, red, cross, cold, energy);
  }

  /** The weight the code divides out of the filled table. */
  lemma WeightFromTable(fib: seq<u32>, total: nat, i: nat)
    requires |fib| == 22 && i < LEVELS && fib[i] == Fib(i + 1) && total == FibTotal(LEVELS)
    ensures total > 0 && fib[i] * PPM / total == FibWeight(i, LEVELS)
  {
    FibTotalPositive(LEVELS);
  }

  /** dh_duo_recompute_simplex_locked */
  method RecomputeSimplex(k: Knobs) returns (s: Simplex)
    ensures s == Ladder(Word32, k)
  {
    hide Base, LevelTotals, NodeTotals, Fib, FibTotal, FibWeight, Mips;
    var base := BaseRetained(k);
    var fib, total := FillFib(LEVELS);
    var levels: seq<Level> := [];
    var acc := NO_TOTALS;
    LevelTotalsStep(Word32, k, base, 0);
    var i := 0;
    while i < LEVELS
      invariant i <= LEVELS
      invariant levels == LevelSeq(Word32, k, base, i)
      invariant acc == LevelTotals(Word32, k, base, i)
    {
      WeightFromTable(fib, total, i);
      var weight := fib[i] * PPM / total;
      var t := SumNodes(k, base, i, weight);
      var avg := Averages(Word32, t, NODES);
      var level := Level(i + 1, fib[i], weight, NODES,
                         avg.ret, avg.red, avg.cross, avg.cold, avg.energy, k.pressure, Mips(Word32, avg.ret));
      assert level == LevelOf(Word32, k, base, i);
      LevelTotalsStep(Word32, k, base, i + 1);
      levels := levels + [level];
      acc := AddLevel(acc, level);
      i := i + 1;
    }
    var avg := Averages(Word32, acc, LEVELS);
    s := SimplexFrom(base, avg, levels);
  }
}
