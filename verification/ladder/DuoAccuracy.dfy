/** The ladder of a duo pair against the same ladder over the reals: every figure of every level is within a
    fixed few millionths of it. */
module DuoAccuracy {
  import opened FixedPoint
  import opened LadderSums
  import opened RealError
  import opened RealLadder
  import opened DuoLadder

  // ----- the ladder over the reals

  function RealMode(mode: u32): real {
    if mode == 1 then 0.98 else if mode == 2 then 1.02 else if mode == 3 then 0.96 else 1.0
  }

  /** Pair energy takes up to 50000 off the base, pair pressure adds up to 40000. */
  function RealBase(k: Knobs): real {
    var raw := 10200.0 + (1000000.0 - k.energy as real) / 20.0 + k.pressure as real / 25.0;
    RealClamp(Product(raw, RealMode(k.mode)), 10200.0, 120000.0)
  }

  function RealBias(k: Knobs, v: real): real {
    var r := Product(v, Ppm(Clamp(k.refraction, 900000, 1200000)));
    var q := Product(r, Ppm(Clamp(k.quotient, 800000, 1250000)));
    Product(Product(if k.mode == 3 then Product(q, 0.97) else q, 0.94), 0.98)
  }

  function RealRetained(k: Knobs, i: nat, n: nat): real
    requires i < 22 && n < 12
  {
    var lift := RealLift(RealBase(k), 77857.0 / 65536.0, 114688.0 / 65536.0, 10200.0, 120000.0,
                         (10200 + n % 4 * 1275) as real, 27525.0 / 65536.0, 67830.0 / 65536.0);
    var shaped := Scaled(lift, 1.0 - Product(RealShare(i, 22), 0.144), RealNodeScalar(n, 11, 0.021), RealPhase(i, n, 0.0102));
    RealClamp(RealBias(k, shaped), 10200.0, 120000.0)
  }

  function RealCross(k: Knobs, n: nat): real {
    var v := k.quotient as real / 3.0 + k.refraction as real / 4.0 + k.energy as real / 5.0 + k.pressure as real / 5.0;
    RealClamp(Product(v, 1.0 - 0.015 * (n % 4) as real), 0.0, 1000000.0)
  }

  function RealCold(k: Knobs, i: nat, n: nat): real
    requires i < 22
  {
    var v := (1000000.0 - k.energy as real) / 2.0 + k.pressure as real / 2.0;
    RealClamp(Product(Product(v, 1.0 + RealShare(i, 22) / 8.0), 1.0 + 0.01 * (n % 3) as real), 0.0, 1000000.0)
  }

  function RealNode(k: Knobs, i: nat, n: nat): Figures
    requires i < 22 && n < 12
  {
    Figures(RealRetained(k, i, n), RealCross(k, n), RealCold(k, i, n), Product(RealRetained(k, i, n), 32086.0 / 65536.0))
  }

  function RealTotals(k: Knobs, i: nat, n: nat): Figures
    requires i < 22 && n <= 12
  {
    if n == 0 then NO_FIGURES else Plus(RealTotals(k, i, n - 1), RealNode(k, i, n - 1))
  }

  function RealLevel(k: Knobs, i: nat): Figures
    requires i < 22
  {
    Over(RealTotals(k, i, 12), 12)
  }

  function RealLevelTotals(k: Knobs, n: nat): Figures
    requires n <= 22
  {
    if n == 0 then NO_FIGURES else Plus(RealLevelTotals(k, n - 1), RealLevel(k, n - 1))
  }

  /** The most the roundings of one node add up to. */
  const NODE_ERROR := Figures(18.0, 5.0, 5.0, 10.0)

  // ----- one node

  lemma BaseNear(k: Knobs)
    requires InRange(k)
    ensures Near(Base(Unbounded, k), RealBase(k), 2.6) && MIN_RETAINED <= Base(Unbounded, k) <= MAX_RETAINED
  {
    BaseFacts(k);
    RawNear(k);
    hide Product, MulPpm, RawBase, RealClamp, Clamp;
    var v, r := RawBase(Unbounded, k), 10200.0 + (1000000.0 - k.energy as real) / 20.0 + k.pressure as real / 25.0;
    MulPpmNear(v, r, 2.0, 980000, 0.98, 0.0, v as real, 1.02, 2.6);
    MulPpmNear(v, r, 2.0, 1020000, 1.02, 0.0, v as real, 1.02, 2.6);
    MulPpmNear(v, r, 2.0, 960000, 0.96, 0.0, v as real, 1.02, 2.6);
    ByOne(r);
    var t := if k.mode == 1 then MulPpm(Unbounded, v, 980000) else if k.mode == 2 then MulPpm(Unbounded, v, 1020000)
             else if k.mode == 3 then MulPpm(Unbounded, v, 960000) else v;
    ClampNear(t, Product(r, RealMode(k.mode)), 2.6, 10200, 120000);
  }

  lemma ByOne(r: real)
    ensures Product(r, 1.0) == r
  {
  }

  lemma RawNear(k: Knobs)
    requires InRange(k)
    ensures Near(RawBase(Unbounded, k), 10200.0 + (1000000.0 - k.energy as real) / 20.0 + k.pressure as real / 25.0, 2.0)
  {
    FloorNear(1000000 - k.energy, 20);
    FloorNear(k.pressure, 25);
  }

  lemma LiftErrorSmall()
    ensures LiftError(2.6, Q16(ARM), Q16(U_SCALAR), Q16(MODIFIER)) <= 8.1
  {
  }

  lemma DuoLiftNear(k: Knobs, slot: nat)
    requires InRange(k) && slot < 4
    ensures var v := Lift(Unbounded, Base(Unbounded, k), slot);
            && 0 <= v <= 124200
            && Near(v, RealLift(RealBase(k), 77857.0 / 65536.0, 114688.0 / 65536.0, 10200.0, 120000.0,
                                (10200 + slot * 1275) as real, 27525.0 / 65536.0, 67830.0 / 65536.0), 8.1)
  {
    BaseNear(k);
    var base := Base(Unbounded, k);
    LiftFacts(base, base, slot);
    LiftErrorSmall();
    hide Base, RealBase, RealLift, LiftError, MulQ16, Clamp, InRange;
    LiftNear(base, RealBase(k), 2.6, ARM, U_SCALAR, MIN_RETAINED, MAX_RETAINED, 10200 + slot * 1275, ADDER, MODIFIER);
  }

  /** The three factors of the shape and their real counterparts. */
  lemma DuoFactorsNear(i: nat, n: nat)
    requires i < LEVELS && n < NODES
    ensures var f, g := LevelScalar(Unbounded, FibWeight(i, LEVELS)), 1.0 - Product(RealShare(i, 22), 0.144);
            0 <= f <= PPM && Near(f, g * 1000000.0, 1.5) && 0.0 <= g <= 1.0
    ensures var f, g := NodeScalar(Unbounded, n), RealNodeScalar(n, 11, 0.021);
            0 <= f <= PPM && Near(f, g * 1000000.0, 1.0) && 0.0 <= g <= 1.0
    ensures var f, g := PhaseScalar(Unbounded, i, n), RealPhase(i, n, 0.0102);
            0 <= f <= PPM && Near(f, g * 1000000.0, 2.0) && 0.0 <= g <= 1.0
  {
    hide FibWeight, RealShare, MulPpm, Product, RealNodeScalar, RealPhase;
    LevelScalarNear(i, LEVELS, LEVEL_GAIN);
    NodeScalarNear(n, 11, NODE_GAIN);
    PhaseScalarNear(i, n, PHASE_GAIN);
  }

  lemma DuoShapeNear(v: int, r: real, i: nat, n: nat)
    requires 0 <= v <= 124200 && Near(v, r, 8.1) && i < LEVELS && n < NODES
    ensures var s := Shape(Unbounded, v, FibWeight(i, LEVELS), i, n);
            && 0 <= s <= 124200
            && Near(s, Scaled(r, 1.0 - Product(RealShare(i, 22), 0.144), RealNodeScalar(n, 11, 0.021), RealPhase(i, n, 0.0102)),
                    10.2)
  {
    hide FibWeight, RealShare, MulPpm, Product, RealNodeScalar, RealPhase, Scaled, LevelScalar, NodeScalar, PhaseScalar;
    FibWeightRises(i, i, LEVELS);
    var w := FibWeight(i, LEVELS);
    ShapeFacts(v, v, w, w, i, i, n);
    DuoFactorsNear(i, n);
    var f, f', f'' := LevelScalar(Unbounded, w), NodeScalar(Unbounded, n), PhaseScalar(Unbounded, i, n);
    ChainNear(v, r, 8.1, f, 1.0 - Product(RealShare(i, 22), 0.144), f', RealNodeScalar(n, 11, 0.021),
              f'', RealPhase(i, n, 0.0102), 124200);
    ScalarFacts(w, w, i, i, n);
  }

  lemma DuoBiasNear(k: Knobs, v: int, r: real)
    requires 0 <= v <= 124200 && Near(v, r, 10.2)
    ensures Near(Bias(Unbounded, v, k), RealBias(k, r), 18.0)
  {
    var f, g := Clamp(k.refraction, 900000, 1200000), Clamp(k.quotient, 800000, 1250000);
    assert 900000 <= f <= 1200000 && 800000 <= g <= 1250000;
    NaturalProducts(v, f);
    hide MulPpm, Product, Clamp;
    MulPpmNear(v, r, 10.2, f, Ppm(f), 0.0, v as real, 1.2, 12.8);
    var v1, r1 := MulPpm(Unbounded, v, f), Product(r, Ppm(f));
    NaturalProducts(v1, g);
    MulPpmNear(v1, r1, 12.8, g, Ppm(g), 0.0, v1 as real, 1.25, 16.5);
    var v2, r2 := MulPpm(Unbounded, v1, g), Product(r1, Ppm(g));
    ScaleNear(v2, r2, 16.5, 970000, 0.97, 0.0, v2, 17.0);
    var v3, r3 := if k.mode == CROSSED then MulPpm(Unbounded, v2, 970000) else v2,
                  if k.mode == CROSSED then Product(r2, 0.97) else r2;
    ScaleNear(v3, r3, 17.0, 940000, 0.94, 0.0, v3, 17.5);
    ScaleNear(MulPpm(Unbounded, v3, 940000), Product(r3, 0.94), 17.5, 980000, 0.98, 0.0, MulPpm(Unbounded, v3, 940000), 18.0);
  }

  lemma NaturalProducts(v: int, f: int)
    requires 0 <= v && 0 <= f
    ensures MulPpm(Unbounded, v, f) >= 0
  {
    MulPpmMono(v, f, v, f);
  }

  lemma DuoRetainedNear(k: Knobs, i: nat, n: nat)
    requires InRange(k) && i < LEVELS && n < NODES
    ensures Near(Retained(Unbounded, k, Base(Unbounded, k), FibWeight(i, LEVELS), i, n), RealRetained(k, i, n), 18.0)
  {
    hide Base, RealBase, Lift, RealLift, Shape, Scaled, Bias, RealBias, FibWeight, RealShare, Product, RealNodeScalar,
         RealPhase, InRange, Clamp, RealClamp;
    DuoLiftNear(k, n % 4);
    var v := Lift(Unbounded, Base(Unbounded, k), n % 4);
    var r := RealLift(RealBase(k), 77857.0 / 65536.0, 114688.0 / 65536.0, 10200.0, 120000.0,
                      (10200 + n % 4 * 1275) as real, 27525.0 / 65536.0, 67830.0 / 65536.0);
    DuoShapeNear(v, r, i, n);
    var s := Shape(Unbounded, v, FibWeight(i, LEVELS), i, n);
    var q := Scaled(r, 1.0 - Product(RealShare(i, 22), 0.144), RealNodeScalar(n, 11, 0.021), RealPhase(i, n, 0.0102));
    DuoBiasNear(k, s, q);
    ClampNear(Bias(Unbounded, s, k), RealBias(k, q), 18.0, MIN_RETAINED, MAX_RETAINED);
  }

  lemma CrossSumNear(k: Knobs)
    requires InRange(k)
    ensures var b := k.quotient / 3 + Clamp(k.refraction, 0, 1500000) / 4 + k.energy / 5 + k.pressure / 5;
            var r := k.quotient as real / 3.0 + k.refraction as real / 4.0 + k.energy as real / 5.0 + k.pressure as real / 5.0;
            Near(b, r, 4.0) && b >= 0
  {
    FloorNear(k.quotient, 3);
    FloorNear(k.refraction, 4);
    FloorNear(k.energy, 5);
    FloorNear(k.pressure, 5);
  }

  lemma DuoCrossNear(k: Knobs, n: nat)
    requires InRange(k) && n < NODES
    ensures Near(Cross(Unbounded, k, n), RealCross(k, n), 5.0)
  {
    CrossSumNear(k);
    hide InRange, Product, MulPpm, RealClamp;
    var b := k.quotient / 3 + Clamp(k.refraction, 0, 1500000) / 4 + k.energy / 5 + k.pressure / 5;
    var r := k.quotient as real / 3.0 + k.refraction as real / 4.0 + k.energy as real / 5.0 + k.pressure as real / 5.0;
    hide Clamp;
    var f, g := PPM - n % 4 * 15000, 1.0 - 0.015 * (n % 4) as real;
    ScaleNear(b, r, 4.0, f, g, 0.0, b, 4.5);
    ClampNear(MulPpm(Unbounded, b, f), Product(r, g), 4.5, 0, 1000000);
  }

  lemma ColdSumNear(k: Knobs)
    requires InRange(k)
    ensures var a, r := (PPM - k.energy) / 2 + k.pressure / 2, (1000000.0 - k.energy as real) / 2.0 + k.pressure as real / 2.0;
            Near(a, r, 2.0) && 0 <= a <= 1000000
  {
    FloorNear(PPM - k.energy, 2);
    FloorNear(k.pressure, 2);
  }

  lemma EighthNear(i: nat)
    requires i < LEVELS
    ensures Near(PPM + FibWeight(i, LEVELS) / 8, (1.0 + RealShare(i, 22) / 8.0) * 1000000.0, 1.125)
    ensures 0 <= PPM + FibWeight(i, LEVELS) / 8 && 0.0 <= 1.0 + RealShare(i, 22) / 8.0 <= 1.125
  {
    hide FibWeight, RealShare;
    WeightNear(i, LEVELS);
    FloorNear(FibWeight(i, LEVELS), 8);
  }

  lemma DuoColdNear(k: Knobs, i: nat, n: nat)
    requires InRange(k) && i < LEVELS && n < NODES
    ensures Near(Cold(Unbounded, k, FibWeight(i, LEVELS), n), RealCold(k, i, n), 5.0)
  {
    ColdSumNear(k);
    EighthNear(i);
    hide InRange, Product, MulPpm, RealClamp, Clamp, FibWeight, RealShare;
    var a, r := (PPM - k.energy) / 2 + k.pressure / 2, (1000000.0 - k.energy as real) / 2.0 + k.pressure as real / 2.0;
    var f, g := PPM + FibWeight(i, LEVELS) / 8, 1.0 + RealShare(i, 22) / 8.0;
    NaturalProducts(a, f);
    MulPpmNear(a, r, 2.0, f, g, 1.125, 1000000.0, 1.125, 3.9);
    var b, q := MulPpm(Unbounded, a, f), Product(r, g);
    MulPpmNear(b, q, 3.9, PPM + n % 3 * 10000, 1.0 + 0.01 * (n % 3) as real, 0.0, b as real, 1.02, 5.0);
    ClampNear(MulPpm(Unbounded, b, PPM + n % 3 * 10000), Product(q, 1.0 + 0.01 * (n % 3) as real), 5.0, 0, 1000000);
  }

  lemma DuoEnergyNear(v: int, r: real)
    requires 0 <= v && Near(v, r, 18.0)
    ensures Near(NodeEnergy(Unbounded, v), Product(r, 32086.0 / 65536.0), 10.0)
  {
    KnotError();
    hide MulQ16, Product;
    MulQ16Near(v, r, 18.0, KNOT);
  }

  lemma KnotError()
    ensures Product(18.0, Q16(KNOT)) <= 9.5
  {
  }

  /** Every figure of a node is that of the real ladder within a few millionths. */
  lemma DuoNodeNear(k: Knobs, i: nat, n: nat)
    requires InRange(k) && i < LEVELS && n < NODES
    ensures NodeNear(NodeAt(Unbounded, k, Base(Unbounded, k), i, n), RealNode(k, i, n), NODE_ERROR)
  {
    hide Base, Retained, RealRetained, Cross, RealCross, Cold, RealCold, NodeEnergy, InRange, FibWeight, Product;
    DuoRetainedNear(k, i, n);
    DuoCrossNear(k, n);
    DuoColdNear(k, i, n);
    DuoEnergyNear(Retained(Unbounded, k, Base(Unbounded, k), FibWeight(i, LEVELS), i, n), RealRetained(k, i, n));
  }

  // ----- levels and ladder

  lemma {:induction false} DuoTotalsNear(k: Knobs, i: nat, n: nat)
    requires InRange(k) && i < LEVELS && n <= NODES
    ensures TotalsNear(NodeTotals(Unbounded, k, Base(Unbounded, k), i, n), RealTotals(k, i, n), Times(n, NODE_ERROR))
    decreases n
  {
    hide Base, NodeAt, RealNode, InRange, TotalsNear, Times, NodeNear, NodeTotals;
    NodeTotalsStep(Unbounded, k, Base(Unbounded, k), i, n);
    if n == 0 {
      NoTotalsNear(NODE_ERROR);
    } else {
      DuoTotalsNear(k, i, n - 1);
      DuoNodeNear(k, i, n - 1);
      var base := Base(Unbounded, k);
      AddNear(NodeTotals(Unbounded, k, base, i, n - 1), RealTotals(k, i, n - 1), NodeAt(Unbounded, k, base, i, n - 1),
              RealNode(k, i, n - 1), n, NODE_ERROR);
    }
  }

  function TotalsOf(l: Level): Totals {
    Totals(l.retained, l.reduction, l.crosshatch, l.coldness, l.energy)
  }

  /** What a level carries besides its figures. */
  predicate LevelLabels(l: Level, k: Knobs, i: nat)
    requires i < 22
  {
    && l.index == i + 1 && l.fib == Fib(i + 1) && Near(l.weight, RealShare(i, 22) * 1000000.0, 1.0)
    && l.nodeCount == 12 && l.pressure == k.pressure && MipProfile(l.mips, l.retained)
  }

  lemma DuoLevelNear(k: Knobs, i: nat)
    requires InRange(k) && i < LEVELS
    ensures var l := LevelOf(Unbounded, k, Base(Unbounded, k), i);
            TotalsNear(TotalsOf(l), RealLevel(k, i), Coarser(NODE_ERROR)) && LevelLabels(l, k, i)
  {
    hide Base, NodeTotals, RealTotals, InRange, TotalsNear, Times, Averages, Over, Mips, FibWeight, Fib, RealShare, MipProfile,
         MulPpm;
    var base := Base(Unbounded, k);
    BaseFacts(k);
    DuoTotalsNear(k, i, NODES);
    AveragesNear(NodeTotals(Unbounded, k, base, i, NODES), RealTotals(k, i, 12), NODES, NODE_ERROR);
    WeightNear(i, LEVELS);
    LevelExact(k, base, i);
    var v := LevelOf(Unbounded, k, base, i).retained;
    LevelMips(k, base, i);
    MipFits(v);
    MipsNear(v);
    MipsExact(v);
  }

  lemma LevelMips(k: Knobs, base: int, i: nat)
    requires i < LEVELS
    ensures LevelOf(Unbounded, k, base, i).mips == Mips(Unbounded, LevelOf(Unbounded, k, base, i).retained)
  {
    hide NodeTotals, FibWeight, Fib, Mips;
  }

  lemma MipFits(v: int)
    requires 0 <= v <= 120000
    ensures MulPpm(Unbounded, v, 2400000) < U32
  {
  }

  lemma {:induction false} DuoLevelTotalsNear(k: Knobs, n: nat)
    requires InRange(k) && n <= LEVELS
    ensures TotalsNear(LevelTotals(Unbounded, k, Base(Unbounded, k), n), RealLevelTotals(k, n), Times(n, Coarser(NODE_ERROR)))
    decreases n
  {
    hide Base, LevelOf, RealLevel, InRange, LevelTotals, Times, Coarser, LevelLabels;
    LevelTotalsStep(Unbounded, k, Base(Unbounded, k), n);
    if n == 0 {
      NoTotalsNear(Coarser(NODE_ERROR));
    } else {
      var base := Base(Unbounded, k);
      DuoLevelTotalsNear(k, n - 1);
      DuoLevelNear(k, n - 1);
      var l := LevelOf(Unbounded, k, base, n - 1);
      AddNear(LevelTotals(Unbounded, k, base, n - 1), RealLevelTotals(k, n - 1),
              NodeShare(l.retained, l.reduction, l.crosshatch, l.coldness, l.energy), RealLevel(k, n - 1), n,
              Coarser(NODE_ERROR));
    }
  }

  /** How close a ladder is to the real one: the base within 2.6 ppm; retained, crosshatch, coldness and energy
      of each level within 19, 6, 6 and 11; the recursive figures within one more. */
  predicate LadderNear(s: Simplex, k: Knobs) {
    && s.levelCount == 22 && s.nodeCount == 12 && s.flags == 3 && |s.levels| == 22
    && Near(s.base, RealBase(k), 2.6)
    && (forall i :: 0 <= i < 22 ==>
          && TotalsNear(TotalsOf(s.levels[i]), RealLevel(k, i), Figures(19.0, 6.0, 6.0, 11.0))
          && LevelLabels(s.levels[i], k, i))
    && TotalsNear(Totals(s.recRetained, s.recReduction, s.recCrosshatch, s.recColdness, s.recEnergy),
                  Over(RealLevelTotals(k, 22), 22), Figures(20.0, 7.0, 7.0, 12.0))
  }

  /** The ladder the module computes in words is the real ladder within 20 ppm in every figure. */
  lemma LadderIsNear(k: Knobs)
    requires InRange(k)
    ensures LadderNear(Ladder(Word32, k), k)
  {
    hide Base, RealBase, LevelTotals, RealLevelTotals, InRange, TotalsNear, Averages, Over, LevelOf, RealLevel, LevelLabels;
    LadderExact(k);
    BaseNear(k);
    var base := Base(Unbounded, k);
    DuoLevelTotalsNear(k, LEVELS);
    AveragesNear(LevelTotals(Unbounded, k, base, LEVELS), RealLevelTotals(k, 22), LEVELS, Coarser(NODE_ERROR));
    forall i | 0 <= i < 22
      ensures TotalsNear(TotalsOf(LevelOf(Unbounded, k, base, i)), RealLevel(k, i), Figures(19.0, 6.0, 6.0, 11.0))
      ensures LevelLabels(LevelOf(Unbounded, k, base, i), k, i)
    {
      DuoLevelNear(k, i);
    }
  }
}
