/** How the report of simplex_adalter_kmod.c moves with its base, its flags and the level. */
module AdalterOrder {
  import opened FixedPoint
  import opened LadderSums
  import opened RealLadder
  import opened AdalterLadder
  import opened AdalterAccuracy

  /** The same configuration with no more flags set. */
  predicate FewerFlags(c': Cfg, c: Cfg) {
    && c' == c.(flags := c'.flags)
    && (c'.flags % 2 == 1 ==> c.flags % 2 == 1) && (c'.flags / 2 % 2 == 1 ==> c.flags / 2 % 2 == 1)
  }

  /** The same base with at least as much retained. */
  predicate RicherBase(b': Base, b: Base) {
    b' == b.(retained := b'.retained) && b.retained <= b'.retained
  }

  lemma WordScaleMono(x: int, f: int, x': int, f': int, top: int)
    requires 0 <= x <= x' <= top < U32 && 0 <= f <= f' <= PPM
    ensures 0 <= MulPpm(Word32, x, f) <= MulPpm(Word32, x', f') <= top
  {
    MulPpmByOne(top);
    hide MulPpm;
    MulPpmMono(x, f, x', f');
    MulPpmMono(x', f', top, 1000000);
  }

  lemma LiftMono(c: Cfg, c': Cfg, b: Base, b': Base, slot: int)
    requires LiftFits(c, b) && LiftFits(c', b') && FewerFlags(c', c) && RicherBase(b', b) && 0 <= slot < 4
    ensures 0 <= Lift(c, b, slot) <= Lift(c', b', slot) <= Top(c) == Top(c') < U32
  {
    LiftIsInt(c, b, slot);
    LiftIsInt(c', b', slot);
    IntLiftMono(b.retained, b'.retained, c.arm, c.uScalar, c.minRetained, c.maxRetained, 10200 + slot * 1275, c.adder,
                c.modifier);
    hide Lift, IntLift, MulQ16, MulPpm;
  }

  lemma IntLiftMono(base: int, base': int, arm: int, u: int, lo: int, hi: int, extra: int, adder: int, modifier: int)
    requires 0 <= base <= base' && 0 <= arm && 0 <= u && 0 <= lo <= hi && 0 <= extra && 0 <= adder && 0 <= modifier
    ensures IntLift(base, arm, u, lo, hi, extra, adder, modifier) <= IntLift(base', arm, u, lo, hi, extra, adder, modifier)
  {
    hide MulQ16;
    MulQ16Mono(base, base', arm);
    MulQ16Mono(MulQ16(Unbounded, base, arm), MulQ16(Unbounded, base', arm), u);
    var v := Clamp(MulQ16(Unbounded, MulQ16(Unbounded, base, arm), u), lo, hi);
    var v' := Clamp(MulQ16(Unbounded, MulQ16(Unbounded, base', arm), u), lo, hi);
    var add := MulQ16(Unbounded, extra, adder);
    MulQ16Mono(Clamp(v + add, lo, hi), Clamp(v' + add, lo, hi), modifier);
  }

  /** The factors fall from level to level. */
  lemma LevelScalarFalls(c: Cfg, j: nat, i: nat)
    requires FactorsFit(c) && i <= j < LevelsOf(c)
    ensures 0 <= LevelScalar(c, FibWeight(j, LevelsOf(c))) <= LevelScalar(c, FibWeight(i, LevelsOf(c))) <= PPM
  {
    hide FibWeight, MulPpm, LevelsOf, NodesOf;
    FibWeightRises(i, j, LevelsOf(c));
    MulPpmMono(FibWeight(i, LevelsOf(c)), c.levelGain, FibWeight(j, LevelsOf(c)), c.levelGain);
    MulPpmMono(FibWeight(j, LevelsOf(c)), c.levelGain, 1000000, 1000000);
    MulPpmByOne(1000000);
  }

  lemma PhaseScalarFalls(c: Cfg, j: nat, i: nat, n: nat)
    requires FactorsFit(c) && i <= j < LevelsOf(c) && n < NodesOf(c)
    ensures 0 <= PhaseScalar(c, j, n) <= PhaseScalar(c, i, n) <= PPM
  {
    hide LevelsOf, NodesOf;
    PhaseFits(i, n, LevelsOf(c), NodesOf(c), c.phaseGain);
    PhaseFits(j, n, LevelsOf(c), NodesOf(c), c.phaseGain);
    PhaseScalarNear(j, n, c.phaseGain);
    MulMono(i + 1, c.phaseGain, j + 1, c.phaseGain);
    DivMono((i + 1) * c.phaseGain, (j + 1) * c.phaseGain, 100);
  }

  lemma TightenedMono(c: Cfg, c': Cfg, v: int, v': int, top: int)
    requires FewerFlags(c', c) && 0 <= v <= v' <= top < U32
    ensures 0 <= Tightened(c, v) <= Tightened(c', v') <= top
  {
    TightenOnce(c.flags % 2 == 1, c'.flags % 2 == 1, 940000, v, v', top);
    TightenOnce(c.flags / 2 % 2 == 1, c'.flags / 2 % 2 == 1, 980000, Tighten(c.flags % 2 == 1, 940000, v),
                Tighten(c'.flags % 2 == 1, 940000, v'), top);
    hide MulPpm;
  }

  function Tighten(on: bool, f: int, v: int): int {
    if on then MulPpm(Word32, v, f) else v
  }

  lemma TightenOnce(on: bool, on': bool, f: int, v: int, v': int, top: int)
    requires (on' ==> on) && 0 <= f <= PPM && 0 <= v <= v' <= top < U32
    ensures 0 <= Tighten(on, f, v) <= Tighten(on', f, v') <= top
  {
    MulPpmByOne(v');
    hide MulPpm;
    WordScaleMono(v, f, v', f, top);
    WordScaleMono(v, f, v', 1000000, top);
    MulPpmMono(v', 1000000, v', 1000000);
  }

  /** A node retains less on a higher level, with more flags, or from a poorer base. */
  lemma NodeOrder(c: Cfg, c': Cfg, b: Base, b': Base, j: nat, i: nat, n: nat)
    requires Tame(c, b) && Tame(c', b') && FewerFlags(c', c) && RicherBase(b', b)
    requires i <= j < LevelsOf(c) && n < NodesOf(c)
    ensures LevelsOf(c') == LevelsOf(c) && NodesOf(c') == NodesOf(c)
    ensures NodeAt(c, b, j, n).ret <= NodeAt(c', b', i, n).ret
  {
    hide Lift, LevelScalar, NodeScalar, PhaseScalar, MulPpm, FibWeight, Tightened, Top, Cross, Cold, MulQ16, Boost;
    LiftMono(c, c', b, b', n % 4);
    LevelScalarFalls(c, j, i);
    NodeScalarIs(c, n);
    PhaseScalarFalls(c, j, i, n);
    SameFactors(c, c', FibWeight(i, LevelsOf(c)), i, n);
    var f, f' := LevelScalar(c, FibWeight(j, LevelsOf(c))), LevelScalar(c, FibWeight(i, LevelsOf(c)));
    var g, h, h' := NodeScalar(c, NodesOf(c), n), PhaseScalar(c, j, n), PhaseScalar(c, i, n);
    var v, v', t := Lift(c, b, n % 4), Lift(c', b', n % 4), Top(c);
    hide LiftFits, FactorsFit;
    WordScaleMono(v, f, v', f', t);
    var x, x' := MulPpm(Word32, v, f), MulPpm(Word32, v', f');
    WordScaleMono(x, g, x', g, t);
    var y, y' := MulPpm(Word32, x, g), MulPpm(Word32, x', g);
    WordScaleMono(y, h, y', h', t);
    TightenedMono(c, c', MulPpm(Word32, y, h), MulPpm(Word32, y', h'), t);
  }

  lemma SameFactors(c: Cfg, c': Cfg, weight: int, i: nat, n: nat)
    requires FewerFlags(c', c)
    ensures LevelScalar(c', weight) == LevelScalar(c, weight) && PhaseScalar(c', i, n) == PhaseScalar(c, i, n)
    ensures NodeScalar(c', NodesOf(c'), n) == NodeScalar(c, NodesOf(c), n)
  {
  }

  lemma {:induction false} NodeTotalsOrder(c: Cfg, c': Cfg, b: Base, b': Base, j: nat, i: nat, n: nat)
    requires Tame(c, b) && Tame(c', b') && FewerFlags(c', c) && RicherBase(b', b)
    requires i <= j < LevelsOf(c) == LevelsOf(c') && n <= NodesOf(c) == NodesOf(c')
    ensures NodeTotals(c, b, j, n).ret <= NodeTotals(c', b', i, n).ret
    decreases n
  {
    hide NodeAt, NodeTotals, Tame, FewerFlags, RicherBase, LevelsOf, NodesOf;
    NodeTotalsStep(c, b, j, n);
    NodeTotalsStep(c', b', i, n);
    if n > 0 {
      NodeTotalsOrder(c, c', b, b', j, i, n - 1);
      NodeOrder(c, c', b, b', j, i, n - 1);
    }
  }

  /** The same for the retained value of a level: it never rises along the ladder, grows with the base, and
      setting a flag never raises it. */
  lemma LevelOrder(c: Cfg, c': Cfg, b: Base, b': Base, j: nat, i: nat)
    requires Tame(c, b) && Tame(c', b') && FewerFlags(c', c) && RicherBase(b', b) && i <= j < LevelsOf(c)
    ensures LevelsOf(c') == LevelsOf(c)
    ensures 0 <= LevelOf(c, b, j).retained <= LevelOf(c', b', i).retained < U32
  {
    SameCounts(c, c');
    hide NodeAt, NodeTotals, Tame, FewerFlags, RicherBase, LevelsOf, NodesOf, Averages;
    NodeTotalsOrder(c, c', b, b', j, i, NodesOf(c));
    RetainedSum(c, b, j, NodesOf(c));
    LevelRetainedIs(c, b, j);
    LevelRetainedIs(c', b', i);
    DivMono(NodeTotals(c, b, j, NodesOf(c)).ret, NodeTotals(c', b', i, NodesOf(c)).ret, NodesOf(c));
  }

  lemma SameCounts(c: Cfg, c': Cfg)
    requires FewerFlags(c', c)
    ensures LevelsOf(c') == LevelsOf(c) && NodesOf(c') == NodesOf(c)
  {
  }

  lemma LevelRetainedIs(c: Cfg, b: Base, i: nat)
    requires i < LevelsOf(c)
    ensures LevelOf(c, b, i).retained == NodeTotals(c, b, i, NodesOf(c)).ret / NodesOf(c) < U32
  {
    LevelAveragesExact(c, b, i);
    LevelInWords(c, b, i);
    hide NodeTotals, Mips, FibWeight, Fib, NodesOf;
  }

  lemma {:induction false} LevelTotalsOrder(c: Cfg, c': Cfg, b: Base, b': Base, n: nat)
    requires Tame(c, b) && Tame(c', b') && FewerFlags(c', c) && RicherBase(b', b) && n <= LevelsOf(c) == LevelsOf(c')
    ensures 0 <= LevelTotals(c, b, n).ret <= LevelTotals(c', b', n).ret
    decreases n
  {
    hide LevelOf, LevelTotals, Tame, FewerFlags, RicherBase, LevelsOf;
    LevelTotalsStep(c, b, n);
    LevelTotalsStep(c', b', n);
    if n > 0 {
      LevelTotalsOrder(c, c', b, b', n - 1);
      LevelOrder(c, c', b, b', n - 1, n - 1);
    }
  }

  /** A richer base or fewer flags never lower a level or the average of the report; along one report no
      level retains more than a lower one. */
  lemma ReportOrder(c: Cfg, c': Cfg, b: Base, b': Base)
    requires Tame(c, b) && Tame(c', b') && FewerFlags(c', c) && RicherBase(b', b)
    ensures var r, r' := ReportOf(c, b), ReportOf(c', b');
            && r.averages.ret <= r'.averages.ret
            && (forall i, j :: 0 <= i <= j < r.levelCount <= MAX_LEVELS ==> r.levels[j].retained <= r'.levels[i].retained)
  {
    SameCounts(c, c');
    AverageOrder(c, c', b, b');
    hide LevelTotals, LevelOf, Tame, FewerFlags, RicherBase, LevelsOf, NodesOf, Averages;
    forall i, j {:trigger LevelOf(c, b, j), LevelOf(c', b', i)} | 0 <= i <= j < LevelsOf(c)
      ensures LevelOf(c, b, j).retained <= LevelOf(c', b', i).retained
    {
      LevelOrder(c, c', b, b', j, i);
    }
  }

  lemma AverageOrder(c: Cfg, c': Cfg, b: Base, b': Base)
    requires Tame(c, b) && Tame(c', b') && FewerFlags(c', c) && RicherBase(b', b)
    ensures ReportOf(c, b).averages.ret <= ReportOf(c', b').averages.ret
  {
    SameCounts(c, c');
    hide LevelTotals, Tame, FewerFlags, RicherBase, LevelsOf, ReportOf;
    LevelTotalsOrder(c, c', b, b', LevelsOf(c));
    AverageIs(c, b);
    AverageIs(c', b');
    DivMono(LevelTotals(c, b, LevelsOf(c)).ret, LevelTotals(c', b', LevelsOf(c)).ret, LevelsOf(c));
  }

  lemma AverageIs(c: Cfg, b: Base)
    requires Tame(c, b)
    ensures ReportOf(c, b).averages.ret == LevelTotals(c, b, LevelsOf(c)).ret / LevelsOf(c)
  {
    hide LevelTotals, Tame, LevelsOf, LevelSlots, NodesOf;
    LevelTotalsInWords(c, b, LevelsOf(c));
    AveragesExact(LevelTotals(c, b, LevelsOf(c)), LevelsOf(c));
  }

  /** With a single level and full gain the level factor is zero: every node keeps exactly the minimum,
      whatever else is configured and whatever wraps. */
  lemma FullGainKeepsMinimum(c: Cfg, b: Base, n: nat)
    requires c.levels == 1 && c.levelGain == PPM
    ensures NodeAt(c, b, 0, n).ret == c.minRetained
  {
    WeightOfOne();
    NoFactor(c);
    ZeroTimes(Lift(c, b, n % 4), NodeScalar(c, NodesOf(c), n), PhaseScalar(c, 0, n));
    TightenedZero(c);
    hide Lift, NodeScalar, PhaseScalar, LevelScalar, Cross, Cold, MulQ16, MulPpm, FibWeight, Tightened;
  }

  lemma NoFactor(c: Cfg)
    requires c.levelGain == PPM
    ensures LevelScalar(c, PPM) == 0
  {
  }

  lemma ZeroTimes(x: int, f: int, g: int)
    ensures MulPpm(Word32, MulPpm(Word32, MulPpm(Word32, x, 0), f), g) == 0
  {
    assert 0 * f == 0 && 0 * g == 0;
  }

  lemma TightenedZero(c: Cfg)
    ensures Tightened(c, 0) == 0
  {
  }

  lemma WeightOfOne()
    ensures FibWeight(0, 1) == PPM
  {
  }

  /** The configuration module init sets up, with either flag or none. */
  predicate Default(c: Cfg) {
    && c.levels == 22 && c.nodes == 12 && c.minRetained == 10200 && c.maxRetained == 120000
    && c.levelGain == 144000 && c.nodeGain == 21000 && c.phaseGain == 10200
    && c.arm == 77857 && c.adder == 27525 && c.modifier == 67830 && c.uScalar == 114688 && c.knot == 32086
  }

  /** The accuracy and order laws hold of it for every base with figures of at most one, and a node is then
      off by less than 6 ppm. */
  lemma DefaultIsTame(c: Cfg, b: Base)
    requires Default(c) && b.retained <= PPM && b.crosshatch <= PPM && b.coldness <= PPM
    ensures Tame(c, b) && RetainedError(c) < 6.0
  {
    MulQ16Mono(b.retained, 1000000, 77857);
    MulQ16Mono(MulQ16(Unbounded, b.retained, 77857), MulQ16(Unbounded, 1000000, 77857), 114688);
  }
}
