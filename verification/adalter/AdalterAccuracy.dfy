/** The report of simplex_adalter_kmod.c against the same ladder over the reals, for configurations in
    which no 32-bit operation of the retained value wraps. */
module AdalterAccuracy {
  import opened FixedPoint
  import opened LadderSums
  import opened RealError
  import opened RealLadder
  import opened AdalterLadder

  /** No operation on the way to a retained value, nor any taken from it, leaves 32 bits. */
  predicate Tame(c: Cfg, b: Base) {
    LiftFits(c, b) && FactorsFit(c) && b.crosshatch <= 4000000000 && b.coldness <= 4000000000
  }

  predicate LiftFits(c: Cfg, b: Base) {
    && c.minRetained <= c.maxRetained
    && MulQ16(Unbounded, b.retained, c.arm) < U32
    && MulQ16(Unbounded, MulQ16(Unbounded, b.retained, c.arm), c.uScalar) < U32
    && c.maxRetained + MulQ16(Unbounded, 14025, c.adder) < U32
    && Top(c) < U32 && MulQ16(Unbounded, c.maxRetained, c.knot) < U32
    && MulPpm(Unbounded, c.maxRetained, 2400000) < U32
  }

  predicate FactorsFit(c: Cfg) {
    && c.levelGain <= PPM && c.nodeGain <= PPM
    && (2 * LevelsOf(c) + NodesOf(c) - 1) * c.phaseGain <= 200 * PPM
  }

  /** No node is worth more than the highest clamped value, modified. */
  function Top(c: Cfg): int {
    MulQ16(Unbounded, c.maxRetained, c.modifier)
  }

  // ----- the ladder over the reals

  /** The exact product of base and factors, before the last clamp. */
  function RealShaped(c: Cfg, b: Base, i: nat, n: nat): real
    requires i < LevelsOf(c)
  {
    var lift := RealLift(b.retained as real, Q16(c.arm), Q16(c.uScalar), c.minRetained as real, c.maxRetained as real,
                         (10200 + n % 4 * 1275) as real, Q16(c.adder), Q16(c.modifier));
    RealTightened(c, Scaled(lift, RealLevelFactor(c, i), RealNodeFactor(c, n), RealPhase(i, n, Ppm(c.phaseGain))))
  }

  function RealLevelFactor(c: Cfg, i: nat): real
    requires i < LevelsOf(c)
  {
    1.0 - Product(RealShare(i, LevelsOf(c)), Ppm(c.levelGain))
  }

  function RealNodeFactor(c: Cfg, n: nat): real {
    if NodesOf(c) > 1 then RealNodeScalar(n, NodesOf(c) - 1, Ppm(c.nodeGain)) else 1.0
  }

  /** What the two flags take off. */
  function RealTightened(c: Cfg, v: real): real {
    Product(Product(v, if c.flags % 2 == 1 then 0.94 else 1.0), if c.flags / 2 % 2 == 1 then 0.98 else 1.0)
  }

  /** The boost as the words hold it: the product of weight and gain has lost its multiples of 2^32. */
  function RealBoost(weight: nat, gain: nat): real {
    1.0 + (weight * gain % 0x1_0000_0000) as real / 1000000000000.0
  }

  /** Crosshatch falls with the slot, coldness rises with the lane. */
  function RealCross(v: real, n: nat): real {
    RealClamp(Product(v, 1.0 - 0.015 * (n % 4) as real), 0.0, 1000000.0)
  }

  function RealCold(v: real, n: nat): real {
    RealClamp(Product(v, 1.0 + 0.01 * (n % 3) as real), 0.0, 1000000.0)
  }

  function RealNode(c: Cfg, b: Base, i: nat, n: nat): Figures
    requires i < LevelsOf(c)
  {
    var w := FibWeight(i, LevelsOf(c));
    var ret := RealClamp(RealShaped(c, b, i, n), c.minRetained as real, c.maxRetained as real);
    Figures(ret, RealCross(Product(b.crosshatch as real, RealBoost(w, 120000)), n),
            RealCold(Product(b.coldness as real, RealBoost(w, 180000)), n), Product(ret, Q16(c.knot)))
  }

  function RealTotals(c: Cfg, b: Base, i: nat, n: nat): Figures
    requires i < LevelsOf(c)
  {
    if n == 0 then NO_FIGURES else Plus(RealTotals(c, b, i, n - 1), RealNode(c, b, i, n - 1))
  }

  function RealLevel(c: Cfg, b: Base, i: nat): Figures
    requires i < LevelsOf(c)
  {
    Over(RealTotals(c, b, i, NodesOf(c)), NodesOf(c))
  }

  function RealLevelTotals(c: Cfg, b: Base, n: nat): Figures
    requires n <= LevelsOf(c)
  {
    if n == 0 then NO_FIGURES else Plus(RealLevelTotals(c, b, n - 1), RealLevel(c, b, n - 1))
  }

  function RealReport(c: Cfg, b: Base): Figures {
    Over(RealLevelTotals(c, b, LevelsOf(c)), LevelsOf(c))
  }

  /** What the roundings of one node add up to. */
  function RetainedError(c: Cfg): real {
    LiftError(0.0, Q16(c.arm), Q16(c.uScalar), Q16(c.modifier)) + 4.5 * Top(c) as real / 1000000.0 + 2.5
  }

  function NodeError(c: Cfg, b: Base): Figures {
    Figures(RetainedError(c), Ppm(b.crosshatch) + 1.0, 1.02 * Ppm(b.coldness) + 1.01,
            Product(RetainedError(c), Q16(c.knot)) + 0.5)
  }

  // ----- no word wraps

  lemma LiftIsInt(c: Cfg, b: Base, slot: int)
    requires LiftFits(c, b) && 0 <= slot < 4
    ensures Lift(c, b, slot)
            == IntLift(b.retained, c.arm, c.uScalar, c.minRetained, c.maxRetained, 10200 + slot * 1275, c.adder, c.modifier)
    ensures 0 <= Lift(c, b, slot) <= Top(c) < U32
  {
    hide MulPpm;
    var a := MulQ16(Unbounded, b.retained, c.arm);
    MulQ16Mono(b.retained, b.retained, c.arm);
    MulQ16Mono(a, a, c.uScalar);
    MulQ16Mono(10200 + slot * 1275, 14025, c.adder);
    var add := MulQ16(Unbounded, 10200 + slot * 1275, c.adder);
    var v := Clamp(Clamp(MulQ16(Unbounded, a, c.uScalar), c.minRetained, c.maxRetained) + add,
                   c.minRetained, c.maxRetained);
    MulQ16Mono(v, c.maxRetained, c.modifier);
    hide MulQ16;
  }

  lemma LevelScalarIs(c: Cfg, i: nat)
    requires FactorsFit(c) && i < LevelsOf(c)
    ensures var f := LevelScalar(c, FibWeight(i, LevelsOf(c)));
            0 <= f <= PPM && Near(f, RealLevelFactor(c, i) * 1000000.0, 1.5)
    ensures 0.0 <= RealLevelFactor(c, i) <= 1.0
  {
    hide LevelsOf, NodesOf, FibWeight, MulPpm, RealShare, Product, Ppm;
    var w := FibWeight(i, LevelsOf(c));
    FibWeightRises(i, i, LevelsOf(c));
    MulPpmMono(w, c.levelGain, 1000000, 1000000);
    MulPpmByOne(1000000);
    LevelScalarNear(i, LevelsOf(c), c.levelGain);
  }

  lemma NodeScalarIs(c: Cfg, n: nat)
    requires FactorsFit(c) && n < NodesOf(c)
    ensures var f := NodeScalar(c, NodesOf(c), n);
            0 <= f <= PPM && Near(f, RealNodeFactor(c, n) * 1000000.0, 1.0)
    ensures 0.0 <= RealNodeFactor(c, n) <= 1.0
  {
    hide LevelsOf, Ppm, RealNodeScalar;
    MulMono(n, c.nodeGain, 11, 1000000);
    if NodesOf(c) > 1 {
      NodeScalarNear(n, NodesOf(c) - 1, c.nodeGain);
    }
  }

  lemma PhaseScalarIs(c: Cfg, i: nat, n: nat)
    requires FactorsFit(c) && i < LevelsOf(c) && n < NodesOf(c)
    ensures var f, g := PhaseScalar(c, i, n), RealPhase(i, n, Ppm(c.phaseGain));
            0 <= f <= PPM && Near(f, g * 1000000.0, 2.0) && 0.0 <= g <= 1.0
  {
    hide LevelsOf, NodesOf, RealPhase;
    PhaseFits(i, n, LevelsOf(c), NodesOf(c), c.phaseGain);
    PhaseScalarNear(i, n, c.phaseGain);
  }

  lemma PhaseFits(i: nat, n: nat, levels: nat, nodes: nat, gain: int)
    requires i < levels && n < nodes && 0 <= gain && (2 * levels + nodes - 1) * gain <= 200 * PPM
    ensures (2 * (i + 1) + n) * gain <= 200 * PPM
    ensures 0 <= (i + 1) * gain <= 100 * PPM && 0 <= n * gain <= 200 * PPM
    ensures 0 <= (i + 1) * gain / 100 && 0 <= n * gain / 200
  {
    MulMono(2 * (i + 1) + n, gain, 2 * levels + nodes - 1, gain);
    MulMono(0, 0, i + 1, gain);
    MulMono(0, 0, n, gain);
    assert (2 * (i + 1) + n) * gain == 2 * ((i + 1) * gain) + n * gain;
  }

  // ----- one node

  lemma TightenNear(on: bool, f: int, g: real, v: int, r: real, e: real, top: int)
    requires Near(v, r, e) && 0 <= v <= top < U32 && 0 <= f <= PPM && 0.0 <= g <= 1.0 && f as real == g * 1000000.0
    ensures var x := if on then MulPpm(Word32, v, f) else v;
            0 <= x <= top && Near(x, Product(r, if on then g else 1.0), e + 0.5)
  {
    ProductByOne(r);
    hide MulPpm, Product;
    ScaleNear(v, r, e, f, g, 0.0, top, e + 0.5);
  }

  lemma TightenedNear(c: Cfg, v: int, r: real, e: real, top: int)
    requires Near(v, r, e) && 0 <= v <= top < U32
    ensures 0 <= Tightened(c, v) <= top && Near(Tightened(c, v), RealTightened(c, r), e + 1.0)
  {
    hide MulPpm, Product, Near;
    TightenNear(c.flags % 2 == 1, 940000, 0.94, v, r, e, top);
    var x := if c.flags % 2 == 1 then MulPpm(Word32, v, 940000) else v;
    TightenNear(c.flags / 2 % 2 == 1, 980000, 0.98, x, Product(r, if c.flags % 2 == 1 then 0.94 else 1.0), e + 0.5, top);
    assert e + 0.5 + 0.5 == e + 1.0;
  }

  lemma ProductByOne(r: real)
    ensures Product(r, 1.0) == r
  {
  }

  lemma LiftIsNear(c: Cfg, b: Base, slot: int)
    requires LiftFits(c, b) && 0 <= slot < 4
    ensures 0 <= Lift(c, b, slot) <= Top(c) < U32
    ensures Near(Lift(c, b, slot),
                 RealLift(b.retained as real, Q16(c.arm), Q16(c.uScalar), c.minRetained as real, c.maxRetained as real,
                          (10200 + slot * 1275) as real, Q16(c.adder), Q16(c.modifier)),
                 LiftError(0.0, Q16(c.arm), Q16(c.uScalar), Q16(c.modifier)))
  {
    hide Lift, IntLift, RealLift, LiftError, MulQ16, MulPpm, Q16, Top;
    LiftIsInt(c, b, slot);
    LiftNear(b.retained, b.retained as real, 0.0, c.arm, c.uScalar, c.minRetained, c.maxRetained, 10200 + slot * 1275,
             c.adder, c.modifier);
  }

  /** Before its last clamp a node's retained value is the exact product of base and factors, up to the
      roundings. */
  lemma ShapedNear(c: Cfg, b: Base, i: nat, n: nat)
    requires Tame(c, b) && i < LevelsOf(c) && n < NodesOf(c)
    ensures var v := Shaped(c, b, NodesOf(c), LevelScalar(c, FibWeight(i, LevelsOf(c))), i, n);
            0 <= v <= Top(c) && Near(v, RealShaped(c, b, i, n), RetainedError(c))
  {
    hide Lift, LevelScalar, NodeScalar, PhaseScalar, MulPpm, RealLift, LiftError, FibWeight, RealPhase, Q16, Ppm, Tightened,
         RealTightened, Top, LiftFits, FactorsFit, RealLevelFactor, RealNodeFactor, Scaled;
    LiftIsNear(c, b, n % 4);
    LevelScalarIs(c, i);
    NodeScalarIs(c, n);
    PhaseScalarIs(c, i, n);
    var v := Lift(c, b, n % 4);
    var r := RealLift(b.retained as real, Q16(c.arm), Q16(c.uScalar), c.minRetained as real, c.maxRetained as real,
                      (10200 + n % 4 * 1275) as real, Q16(c.adder), Q16(c.modifier));
    var e := LiftError(0.0, Q16(c.arm), Q16(c.uScalar), Q16(c.modifier));
    var f, f', f'' := LevelScalar(c, FibWeight(i, LevelsOf(c))), NodeScalar(c, NodesOf(c), n), PhaseScalar(c, i, n);
    ChainNear(v, r, e, f, RealLevelFactor(c, i), f', RealNodeFactor(c, n), f'', RealPhase(i, n, Ppm(c.phaseGain)), Top(c));
    var y := MulPpm(Word32, MulPpm(Word32, MulPpm(Word32, v, f), f'), f'');
    TightenedNear(c, y, Scaled(r, RealLevelFactor(c, i), RealNodeFactor(c, n), RealPhase(i, n, Ppm(c.phaseGain))),
                  e + 4.5 * Top(c) as real / 1000000.0 + 1.5, Top(c));
  }

  lemma BoostNear(weight: nat, gain: nat)
    requires weight <= PPM && gain <= 180000
    ensures Near(Boost(weight, gain), RealBoost(weight, gain) * 1000000.0, 1.0)
    ensures PPM <= Boost(weight, gain) <= 1004294 && 0.0 <= RealBoost(weight, gain) <= 1.0043
  {
    var x := weight * gain % U32;
    MulMono(0, 0, weight, gain);
    FloorNear(x, 1000000);
  }

  lemma LargeProducts()
    ensures MulPpm(Unbounded, 4000000000, 1004294) <= 4020000000
    ensures MulPpm(Unbounded, 4020000000, 1020000) < U32
  {
  }

  /** The first product of crosshatch and coldness. */
  lemma BoostedNear(v: u32, weight: nat, gain: nat)
    requires v <= 4000000000 && weight <= PPM && gain <= 180000
    ensures var x := MulPpm(Word32, v, Boost(weight, gain));
            0 <= x <= 4020000000 && Near(x, Product(v as real, RealBoost(weight, gain)), Ppm(v) + 0.5)
  {
    hide Boost, RealBoost, MulPpm, Product;
    BoostNear(weight, gain);
    LargeProducts();
    var f, g := Boost(weight, gain), RealBoost(weight, gain);
    MulPpmNear(v, v as real, 0.0, f, g, 1.0, v as real, 1.0043, Ppm(v) + 0.5);
    MulPpmMono(v, f, 4000000000, 1004294);
  }

  lemma SlotNear(x: int, r: real, e: real, n: nat)
    requires Near(x, r, e) && 0 <= x <= 4020000000
    ensures Near(Clamp(MulPpm(Word32, x, PPM - n % 4 * 15000), 0, 1000000), RealCross(r, n), e + 0.5)
  {
    hide MulPpm, Product, Clamp, RealClamp;
    var f, g := PPM - n % 4 * 15000, 1.0 - 0.015 * (n % 4) as real;
    ScaleNear(x, r, e, f, g, 0.0, 4020000000, e + 0.5);
    ClampNear(MulPpm(Word32, x, f), Product(r, g), e + 0.5, 0, 1000000);
  }

  lemma LaneNear(x: int, r: real, e: real, n: nat)
    requires Near(x, r, e) && 0 <= x <= 4020000000
    ensures Near(Clamp(MulPpm(Word32, x, PPM + n % 3 * 10000), 0, 1000000), RealCold(r, n), 1.02 * e + 0.5)
  {
    hide MulPpm, Product, Clamp, RealClamp;
    var f, g := PPM + n % 3 * 10000, 1.0 + 0.01 * (n % 3) as real;
    LargeProducts();
    MulPpmNear(x, r, e, f, g, 0.0, 4020000000.0, 1.02, 1.02 * e + 0.5);
    MulPpmMono(x, f, 4020000000, 1020000);
    ClampNear(MulPpm(Word32, x, f), Product(r, g), 1.02 * e + 0.5, 0, 1000000);
  }

  lemma CrossNear(b: Base, weight: nat, n: nat)
    requires b.crosshatch <= 4000000000 && weight <= PPM
    ensures Near(Cross(b, weight, n), RealCross(Product(b.crosshatch as real, RealBoost(weight, 120000)), n),
                 Ppm(b.crosshatch) + 1.0)
  {
    hide MulPpm, Boost, RealBoost, Ppm, Clamp, RealCross, Product;
    BoostedNear(b.crosshatch, weight, 120000);
    SlotNear(MulPpm(Word32, b.crosshatch, Boost(weight, 120000)), Product(b.crosshatch as real, RealBoost(weight, 120000)),
             Ppm(b.crosshatch) + 0.5, n);
  }

  lemma ColdNear(b: Base, weight: nat, n: nat)
    requires b.coldness <= 4000000000 && weight <= PPM
    ensures Near(Cold(b, weight, n), RealCold(Product(b.coldness as real, RealBoost(weight, 180000)), n),
                 1.02 * Ppm(b.coldness) + 1.01)
  {
    hide MulPpm, Boost, RealBoost, Ppm, Clamp, RealCold, Product;
    BoostedNear(b.coldness, weight, 180000);
    LaneNear(MulPpm(Word32, b.coldness, Boost(weight, 180000)), Product(b.coldness as real, RealBoost(weight, 180000)),
             Ppm(b.coldness) + 0.5, n);
  }

  lemma EnergyNear(c: Cfg, b: Base, v: int, r: real, e: real)
    requires LiftFits(c, b) && Near(v, r, e) && 0 <= v <= c.maxRetained
    ensures Near(MulQ16(Word32, v, c.knot), Product(r, Q16(c.knot)), Product(e, Q16(c.knot)) + 0.5)
  {
    hide MulQ16, Q16, Top, MulPpm, Product;
    MulQ16Mono(v, c.maxRetained, c.knot);
    MulQ16Near(v, r, e, c.knot);
  }

  lemma RetainedIsNear(c: Cfg, b: Base, i: nat, n: nat)
    requires Tame(c, b) && i < LevelsOf(c) && n < NodesOf(c)
    ensures var v := NodeAt(c, b, i, n).ret;
            && 0 <= v <= c.maxRetained
            && Near(v, RealClamp(RealShaped(c, b, i, n), c.minRetained as real, c.maxRetained as real), RetainedError(c))
  {
    hide Shaped, RealShaped, RetainedError, FibWeight, LevelScalar, MulQ16, MulPpm, Cross, Cold, FactorsFit;
    ShapedNear(c, b, i, n);
    var y := Shaped(c, b, NodesOf(c), LevelScalar(c, FibWeight(i, LevelsOf(c))), i, n);
    ClampNear(y, RealShaped(c, b, i, n), RetainedError(c), c.minRetained, c.maxRetained);
  }

  /** All figures of a node are those of the real ladder, up to the roundings. */
  lemma NodeIsNear(c: Cfg, b: Base, i: nat, n: nat)
    requires Tame(c, b) && i < LevelsOf(c) && n < NodesOf(c)
    ensures NodeNear(NodeAt(c, b, i, n), RealNode(c, b, i, n), NodeError(c, b))
  {
    hide Retained, RealShaped, RetainedError, LiftFits, FactorsFit, Cross, Cold, RealBoost, LevelScalar, FibWeight, MulQ16,
         Q16, Ppm, RealClamp, RealCross, RealCold, LevelsOf, NodesOf, Product;
    var w := FibWeight(i, LevelsOf(c));
    FibWeightRises(i, i, LevelsOf(c));
    RetainedIsNear(c, b, i, n);
    CrossNear(b, w, n);
    ColdNear(b, w, n);
    EnergyNear(c, b, NodeAt(c, b, i, n).ret,
               RealClamp(RealShaped(c, b, i, n), c.minRetained as real, c.maxRetained as real), RetainedError(c));
  }

  // ----- levels and report

  lemma {:induction false} NodeTotalsNear(c: Cfg, b: Base, i: nat, n: nat)
    requires Tame(c, b) && i < LevelsOf(c) && n <= NodesOf(c)
    ensures TotalsNear(NodeTotals(c, b, i, n), RealTotals(c, b, i, n), Times(n, NodeError(c, b)))
    decreases n
  {
    hide NodeAt, RealNode, NodeError, Tame, TotalsNear, Times, NodeNear, LevelsOf, NodesOf;
    NodeTotalsStep(c, b, i, n);
    if n == 0 {
      NoTotalsNear(NodeError(c, b));
    } else {
      NodeTotalsNear(c, b, i, n - 1);
      NodeIsNear(c, b, i, n - 1);
      AddNear(NodeTotals(c, b, i, n - 1), RealTotals(c, b, i, n - 1), NodeAt(c, b, i, n - 1), RealNode(c, b, i, n - 1),
              n, NodeError(c, b));
    }
  }

  predicate WordSums(t: Totals, n: nat) {
    && 0 <= t.ret <= n * (U32 - 1) && 0 <= t.red <= n * (U32 - 1) && 0 <= t.cross <= n * (U32 - 1)
    && 0 <= t.cold <= n * (U32 - 1) && 0 <= t.energy <= n * (U32 - 1)
  }

  /** Averages of words are words. */
  lemma AveragesExact(t: Totals, n: nat)
    requires n > 0 && WordSums(t, n)
    ensures Averages(Word32, t, n) == Averages(Unbounded, t, n)
  {
    AverageBetween(t.ret, n, 0, U32 - 1);
    AverageBetween(t.red, n, 0, U32 - 1);
    AverageBetween(t.cross, n, 0, U32 - 1);
    AverageBetween(t.cold, n, 0, U32 - 1);
    AverageBetween(t.energy, n, 0, U32 - 1);
  }

  lemma LevelAveragesExact(c: Cfg, b: Base, i: nat)
    requires i < LevelsOf(c)
    ensures Averages(Word32, NodeTotals(c, b, i, NodesOf(c)), NodesOf(c))
            == Averages(Unbounded, NodeTotals(c, b, i, NodesOf(c)), NodesOf(c))
  {
    hide NodeTotals, Averages, Above, NodesOf, BoundsFit;
    var n := NodesOf(c);
    NodeTotalsMayWrap(c, b, i, n);
    MulMono(n, PPM, n, U32 - 1);
    AveragesExact(NodeTotals(c, b, i, n), n);
  }

  /** The figures of a level as totals. */
  function TotalsOf(l: Level): Totals {
    Totals(l.retained, l.reduction, l.crosshatch, l.coldness, l.energy)
  }

  /** What the code keeps besides the figures: where the level is, its Fibonacci number and weight, and nine
      mips, each a fixed multiple of the retained value. */
  predicate LevelLabels(l: Level, i: nat, levels: nat)
    requires i < levels
  {
    && l.index == i + 1 && l.fib == Fib(i + 1) && Near(l.weight, RealShare(i, levels) * 1000000.0, 1.0)
    && MipProfile(l.mips, l.retained)
  }

  /** On every level retained, crosshatch, coldness and energy are the averages of the real ladder, up to the
      error of one node and one rounding. */
  lemma LevelIsNear(c: Cfg, b: Base, i: nat)
    requires Tame(c, b) && i < LevelsOf(c)
    ensures TotalsNear(TotalsOf(LevelOf(c, b, i)), RealLevel(c, b, i), Coarser(NodeError(c, b)))
    ensures LevelLabels(LevelOf(c, b, i), i, LevelsOf(c))
  {
    hide NodeTotals, RealTotals, NodeError, Tame, TotalsNear, Times, Averages, Over, Mips, FibWeight, Fib, RealShare, NodesOf,
         LevelsOf, MipProfile, MulPpm;
    var n := NodesOf(c);
    NodeTotalsNear(c, b, i, n);
    LevelAveragesExact(c, b, i);
    AveragesNear(NodeTotals(c, b, i, n), RealTotals(c, b, i, n), n, NodeError(c, b));
    WeightNear(i, LevelsOf(c));
    LevelRetainedFits(c, b, i);
    MipsNear(LevelOf(c, b, i).retained);
  }

  lemma {:induction false} RetainedSum(c: Cfg, b: Base, i: nat, n: nat)
    requires Tame(c, b) && i < LevelsOf(c) && n <= NodesOf(c)
    ensures 0 <= NodeTotals(c, b, i, n).ret <= n * c.maxRetained
    decreases n
  {
    hide NodeAt, NodeTotals, Tame;
    NodeTotalsStep(c, b, i, n);
    if n > 0 {
      RetainedSum(c, b, i, n - 1);
      RetainedIsNear(c, b, i, n - 1);
      assert n * c.maxRetained == (n - 1) * c.maxRetained + c.maxRetained;
    }
  }

  lemma LevelRetainedFits(c: Cfg, b: Base, i: nat)
    requires Tame(c, b) && i < LevelsOf(c)
    ensures var v := LevelOf(c, b, i).retained;
            0 <= v <= c.maxRetained && MulPpm(Unbounded, v, 2400000) < U32
  {
    hide NodeTotals, Mips, FibWeight, Fib, MulQ16, MulPpm, Top, NodesOf, LevelsOf, FactorsFit;
    RetainedSum(c, b, i, NodesOf(c));
    AverageBetween(NodeTotals(c, b, i, NodesOf(c)).ret, NodesOf(c), 0, c.maxRetained);
    MulPpmMono(LevelOf(c, b, i).retained, 2400000, c.maxRetained, 2400000);
  }

  lemma LevelInWords(c: Cfg, b: Base, i: nat)
    requires i < LevelsOf(c)
    ensures WordSums(TotalsOf(LevelOf(c, b, i)), 1)
  {
    hide NodeTotals, Mips, FibWeight, Fib, NodesOf;
  }

  lemma {:induction false} LevelTotalsInWords(c: Cfg, b: Base, n: nat)
    requires n <= LevelsOf(c)
    ensures WordSums(LevelTotals(c, b, n), n)
    decreases n
  {
    hide LevelOf, LevelsOf, LevelTotals;
    LevelTotalsStep(c, b, n);
    if n > 0 {
      LevelTotalsInWords(c, b, n - 1);
      LevelInWords(c, b, n - 1);
    }
  }

  lemma {:induction false} LevelTotalsNear(c: Cfg, b: Base, n: nat)
    requires Tame(c, b) && n <= LevelsOf(c)
    ensures TotalsNear(LevelTotals(c, b, n), RealLevelTotals(c, b, n), Times(n, Coarser(NodeError(c, b))))
    decreases n
  {
    hide LevelOf, RealLevel, NodeError, Coarser, Tame, LevelsOf, LevelTotals, Times, LevelLabels, TotalsNear;
    LevelTotalsStep(c, b, n);
    if n == 0 {
      NoTotalsNear(Coarser(NodeError(c, b)));
    } else {
      LevelTotalsNear(c, b, n - 1);
      LevelIsNear(c, b, n - 1);
      LevelAdds(LevelTotals(c, b, n - 1), RealLevelTotals(c, b, n - 1), LevelOf(c, b, n - 1), RealLevel(c, b, n - 1), n,
                Coarser(NodeError(c, b)));
    }
  }

  lemma LevelAdds(t: Totals, r: Figures, l: Level, q: Figures, n: nat, e: Figures)
    requires n > 0 && TotalsNear(t, r, Times(n - 1, e)) && TotalsNear(TotalsOf(l), q, e)
    ensures TotalsNear(AddLevel(t, l), Plus(r, q), Times(n, e))
  {
    hide Times;
    AddNear(t, r, NodeShare(l.retained, l.reduction, l.crosshatch, l.coldness, l.energy), q, n, e);
  }

  /** The averages of the whole report are those of the real ladder, up to the error of one node and two
      roundings; every level has its place, weight and mips. */
  lemma ReportIsNear(c: Cfg, b: Base)
    requires Tame(c, b)
    ensures var r := ReportOf(c, b);
            && TotalsNear(r.averages, RealReport(c, b), Coarser(Coarser(NodeError(c, b))))
            && r.levelCount == LevelsOf(c) && r.nodeCount == NodesOf(c) && |r.levels| == MAX_LEVELS
            && r.key == b.key && r.finalBase == b.finalBase
    ensures forall i :: 0 <= i < LevelsOf(c) ==>
              && TotalsNear(TotalsOf(ReportOf(c, b).levels[i]), RealLevel(c, b, i), Coarser(NodeError(c, b)))
              && LevelLabels(ReportOf(c, b).levels[i], i, LevelsOf(c))
    ensures forall i :: LevelsOf(c) <= i < MAX_LEVELS ==> ReportOf(c, b).levels[i] == NO_LEVEL
  {
    hide LevelTotals, RealLevelTotals, NodeError, Tame, TotalsNear, Averages, Over, LevelOf, LevelsOf, NodesOf, Coarser,
         WordSums, RealLevel, LevelLabels;
    var n := LevelsOf(c);
    LevelTotalsNear(c, b, n);
    LevelTotalsInWords(c, b, n);
    AveragesExact(LevelTotals(c, b, n), n);
    AveragesNear(LevelTotals(c, b, n), RealLevelTotals(c, b, n), n, Coarser(NodeError(c, b)));
    forall i | 0 <= i < n
      ensures TotalsNear(TotalsOf(LevelOf(c, b, i)), RealLevel(c, b, i), Coarser(NodeError(c, b)))
      ensures LevelLabels(LevelOf(c, b, i), i, n)
    {
      LevelIsNear(c, b, i);
    }
  }
}
