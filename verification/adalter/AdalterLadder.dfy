/** The configurable ladder of simplex_adalter_kmod.c, in 32-bit words, for any configuration. */
module AdalterLadder {
  import opened FixedPoint
  import opened LadderSums

  const MAX_LEVELS: nat := 22
  const MAX_NODES: nat := 12
  const KEY_LEN: nat := 128

  datatype Cfg = Cfg(
    version: u32, levels: u32, nodes: u32,
    minRetained: u32, maxRetained: u32, levelGain: u32, nodeGain: u32, phaseGain: u32,
    arm: u32, adder: u32, modifier: u32, uScalar: u32, knot: u32, flags: u32)

  datatype Base = Base(key: string, finalBase: u32, retained: u32, crosshatch: u32, coldness: u32)

  /** Zero means the default, and too many means the maximum. */
  function LevelsOf(c: Cfg): (n: nat)
    ensures 1 <= n <= MAX_LEVELS
  {
    if c.levels == 0 then 22 else if c.levels > MAX_LEVELS then MAX_LEVELS else c.levels
  }

  function NodesOf(c: Cfg): (n: nat)
    ensures 1 <= n <= MAX_NODES
  {
    if c.nodes == 0 then 12 else if c.nodes > MAX_NODES then MAX_NODES else c.nodes
  }

  // ----- one node

  function Lift(c: Cfg, b: Base, slot: int): int {
    var v := MulQ16(Word32, MulQ16(Word32, b.retained, c.arm), c.uScalar);
    var add := MulQ16(Word32, 10200 + slot * 1275, c.adder);
    MulQ16(Word32,
           Clamp(Fit(Word32, Clamp(v, c.minRetained, c.maxRetained) + add), c.minRetained, c.maxRetained),
           c.modifier)
  }

  function LevelScalar(c: Cfg, weight: int): int {
    Fit(Word32, PPM - MulPpm(Word32, weight, c.levelGain))
  }

  function NodeScalar(c: Cfg, nodes: nat, n: int): int
    requires nodes > 0
  {
    if nodes > 1 then Fit(Word32, PPM - Fit(Word32, n * c.nodeGain) / (nodes - 1)) else PPM
  }

  function PhaseScalar(c: Cfg, i: int, n: int): int {
    Fit(Word32, Fit(Word32, PPM - Fit(Word32, (i + 1) * c.phaseGain) / 100) - Fit(Word32, n * c.phaseGain) / 200)
  }

  function Tightened(c: Cfg, v: int): int {
    var v1 := if c.flags % 2 == 1 then MulPpm(Word32, v, 940000) else v;
    if c.flags / 2 % 2 == 1 then MulPpm(Word32, v1, 980000) else v1
  }

  /** The retained value of a node before its last clamp. */
  function Shaped(c: Cfg, b: Base, nodes: nat, levelScalar: int, i: int, n: int): int
    requires nodes > 0
  {
    var v1 := MulPpm(Word32, Lift(c, b, n % 4), levelScalar);
    var v2 := MulPpm(Word32, v1, NodeScalar(c, nodes, n));
    var v3 := MulPpm(Word32, v2, PhaseScalar(c, i, n));
    Tightened(c, v3)
  }

  function Retained(c: Cfg, b: Base, nodes: nat, levelScalar: int, i: int, n: int): int
    requires nodes > 0
  {
    Clamp(Shaped(c, b, nodes, levelScalar, i, n), c.minRetained, c.maxRetained)
  }

  /** `1 + weight * gain` in ppm; the product is formed in 32 bits. */
  function Boost(weight: int, gain: int): int {
    Fit(Word32, PPM + Fit(Word32, weight * gain) / 1000000)
  }

  function Cross(b: Base, weight: int, n: int): (r: int)
    ensures 0 <= r <= PPM
  {
    var v := MulPpm(Word32, b.crosshatch, Boost(weight, 120000));
    Clamp(MulPpm(Word32, v, PPM - n % 4 * 15000), 0, 1000000)
  }

  function Cold(b: Base, weight: int, n: int): (r: int)
    ensures 0 <= r <= PPM
  {
    var v := MulPpm(Word32, b.coldness, Boost(weight, 180000));
    Clamp(MulPpm(Word32, v, PPM + n % 3 * 10000), 0, 1000000)
  }

  // ----- levels and report

  /** The contribution of node `n` of level `i`, given what the code worked out before it. */
  function ShareOf(c: Cfg, b: Base, nodes: nat, weight: int, levelScalar: int, i: nat, n: nat): NodeShare
    requires nodes > 0
  {
    var v := Retained(c, b, nodes, levelScalar, i, n);
    NodeShare(v, Fit(Word32, PPM - v), Cross(b, weight, n), Cold(b, weight, n), MulQ16(Word32, v, c.knot))
  }

  function NodeAt(c: Cfg, b: Base, i: nat, n: nat): NodeShare
    requires i < LevelsOf(c)
  {
    var weight := FibWeight(i, LevelsOf(c));
    ShareOf(c, b, NodesOf(c), weight, LevelScalar(c, weight), i, n)
  }

  function NodeTotals(c: Cfg, b: Base, i: nat, n: nat): Totals
    requires i < LevelsOf(c)
  {
    if n == 0 then NO_TOTALS else AddShare(NodeTotals(c, b, i, n - 1), NodeAt(c, b, i, n - 1))
  }

  datatype Level = Level(
    index: int, fib: int, weight: int,
    retained: int, reduction: int, crosshatch: int, coldness: int, energy: int, mips: seq<u32>)

  const NO_LEVEL := Level(0, 0, 0, 0, 0, 0, 0, 0, [0, 0, 0, 0, 0, 0, 0, 0, 0])

  function LevelFrom(i: nat, fib: int, weight: int, avg: Totals): Level {
    Level(i + 1, fib, weight, avg.ret, avg.red, avg.cross, avg.cold, avg.energy, Mips(Word32, avg.ret))
  }

  function LevelOf(c: Cfg, b: Base, i: nat): Level
    requires i < LevelsOf(c)
  {
    LevelFrom(i, Fib(i + 1), FibWeight(i, LevelsOf(c)), Averages(Word32, NodeTotals(c, b, i, NodesOf(c)), NodesOf(c)))
  }

  function AddLevel(t: Totals, l: Level): Totals {
    Totals(t.ret + l.retained, t.red + l.reduction, t.cross + l.crosshatch, t.cold + l.coldness, t.energy + l.energy)
  }

  function LevelTotals(c: Cfg, b: Base, n: nat): Totals
    requires n <= LevelsOf(c)
  {
    if n == 0 then NO_TOTALS else AddLevel(LevelTotals(c, b, n - 1), LevelOf(c, b, n - 1))
  }

  datatype Report = Report(
    key: string, finalBase: u32, averages: Totals, levelCount: nat, nodeCount: nat, levels: seq<Level>)

  function NoLevels(): (r: seq<Level>)
    ensures |r| == MAX_LEVELS
  {
    seq(MAX_LEVELS, _ => NO_LEVEL)
  }

  /** The report after memset. */
  const NO_REPORT := Report("", 0, NO_TOTALS, 0, 0, NoLevels())

  /** The 22 level slots with the first `n` filled. */
  function LevelSlots(c: Cfg, b: Base, n: nat): (r: seq<Level>)
    requires n <= LevelsOf(c)
    ensures |r| == MAX_LEVELS
  {
    seq(MAX_LEVELS, i requires 0 <= i < MAX_LEVELS => if i < n then LevelOf(c, b, i) else NO_LEVEL)
  }

  /** The report while the recompute runs, `n` levels in: averages are still zero. */
  function Partial(c: Cfg, b: Base, n: nat): Report
    requires n <= LevelsOf(c)
  {
    Report(b.key, b.finalBase, NO_TOTALS, LevelsOf(c), NodesOf(c), LevelSlots(c, b, n))
  }

  /** sa_recompute_locked as a function of configuration and base. */
  function ReportOf(c: Cfg, b: Base): Report {
    Partial(c, b, LevelsOf(c)).(averages := Averages(Word32, LevelTotals(c, b, LevelsOf(c)), LevelsOf(c)))
  }

  // ----- conservation

  /** Clamp bounds of at most one. SET_CFG accepts others, too. */
  predicate BoundsFit(c: Cfg) {
    c.minRetained <= PPM && c.maxRetained <= PPM
  }

  /** How many of the first `n` nodes of a level keep more than one. */
  function Above(c: Cfg, b: Base, i: nat, n: nat): (r: nat)
    requires i < LevelsOf(c)
    ensures r <= n
  {
    if n == 0 then 0 else Above(c, b, i, n - 1) + (if NodeAt(c, b, i, n - 1).ret > PPM then 1 else 0)
  }

  /** No node of any level keeps more than one. */
  predicate NoneAbove(c: Cfg, b: Base) {
    forall i :: 0 <= i < LevelsOf(c) ==> Above(c, b, i, NodesOf(c)) == 0
  }

  /** Whatever wraps on the way, a node's two shares make one, unless it keeps more: then the reduction
      wraps, too. */
  lemma NodeMayWrap(c: Cfg, b: Base, i: nat, n: nat)
    requires i < LevelsOf(c)
    ensures var x := NodeAt(c, b, i, n);
            && 0 <= x.ret < U32 && 0 <= x.red < U32
            && x.ret + x.red == PPM + (if x.ret > PPM then U32 else 0)
            && 0 <= x.cross <= PPM && 0 <= x.cold <= PPM && 0 <= x.energy < U32
            && (BoundsFit(c) ==> x.ret <= PPM)
  {
    hide Shaped, MulPpm, MulQ16, FibWeight, LevelScalar;
  }

  lemma NodeTotalsStep(c: Cfg, b: Base, i: nat, n: nat)
    requires i < LevelsOf(c)
    ensures n == 0 ==> NodeTotals(c, b, i, n) == NO_TOTALS
    ensures n > 0 ==> NodeTotals(c, b, i, n) == AddShare(NodeTotals(c, b, i, n - 1), NodeAt(c, b, i, n - 1))
  {
  }

  lemma {:induction false} NodeTotalsMayWrap(c: Cfg, b: Base, i: nat, n: nat)
    requires i < LevelsOf(c)
    ensures var t := NodeTotals(c, b, i, n);
            && 0 <= t.ret <= n * (U32 - 1) && 0 <= t.red <= n * (U32 - 1)
            && t.ret + t.red == n * PPM + Above(c, b, i, n) * U32
            && 0 <= t.cross <= n * PPM && 0 <= t.cold <= n * PPM && 0 <= t.energy <= n * (U32 - 1)
            && (Above(c, b, i, n) == 0 ==> t.ret <= n * PPM)
            && (BoundsFit(c) ==> Above(c, b, i, n) == 0)
    decreases n
  {
    hide NodeTotals, NodeAt, BoundsFit;
    NodeTotalsStep(c, b, i, n);
    if n > 0 {
      NodeTotalsMayWrap(c, b, i, n - 1);
      NodeMayWrap(c, b, i, n - 1);
    }
  }

  predicate LevelConserves(l: Level) {
    && 0 <= l.retained <= PPM && 0 <= l.reduction && PPM - 1 <= l.retained + l.reduction <= PPM
    && 0 <= l.crosshatch <= PPM && 0 <= l.coldness <= PPM
  }

  /** On a level retained plus reduction is 10^6 or 10^6 - 1 if and only if none of its nodes keeps more
      than one, whatever the clamp bounds are; bounds of at most one make sure of that. */
  lemma LevelConservesIff(c: Cfg, b: Base, i: nat)
    requires i < LevelsOf(c)
    ensures LevelConserves(LevelOf(c, b, i)) <==> Above(c, b, i, NodesOf(c)) == 0
    ensures BoundsFit(c) ==> Above(c, b, i, NodesOf(c)) == 0
  {
    hide NodeTotals, Mips, FibWeight, Fib, NodesOf, Above, BoundsFit;
    var n := NodesOf(c);
    NodeTotalsMayWrap(c, b, i, n);
    var t, m := NodeTotals(c, b, i, n), Above(c, b, i, n);
    AverageBetween(t.ret, n, 0, U32 - 1);
    AverageBetween(t.red, n, 0, U32 - 1);
    AverageBetween(t.cross, n, 0, PPM);
    AverageBetween(t.cold, n, 0, PPM);
    if m == 0 {
      SplitAverages(t.ret, t.red, n);
      AverageBetween(t.ret, n, 0, PPM);
    } else {
      AveragesExceed(t.ret, t.red, n);
    }
  }

  /** Two parts whose sum is well above `d` ones average to more than one together. */
  lemma AveragesExceed(x: int, y: int, d: int)
    requires 0 < d <= MAX_NODES && x >= 0 && y >= 0 && x + y >= d * PPM + U32
    ensures x / d + y / d > PPM
  {
    assert x == x / d * d + x % d && y == y / d * d + y % d;
    assert (x / d + y / d) * d == x / d * d + y / d * d;
    OrderedQuotients(PPM + 1, 0, x / d + y / d, d - 1, d);
  }

  lemma LevelTotalsStep(c: Cfg, b: Base, n: nat)
    requires n <= LevelsOf(c)
    ensures n == 0 ==> LevelTotals(c, b, n) == NO_TOTALS
    ensures n > 0 ==> LevelTotals(c, b, n) == AddLevel(LevelTotals(c, b, n - 1), LevelOf(c, b, n - 1))
  {
  }

  lemma {:induction false} LevelTotalsConserve(c: Cfg, b: Base, n: nat)
    requires NoneAbove(c, b) && n <= LevelsOf(c)
    ensures var t := LevelTotals(c, b, n);
            0 <= t.ret <= n * PPM && 0 <= t.red <= n * PPM && n * (PPM - 1) <= t.ret + t.red <= n * PPM
    decreases n
  {
    hide LevelTotals, LevelOf, LevelsOf, NodesOf, Above;
    LevelTotalsStep(c, b, n);
    if n > 0 {
      LevelTotalsConserve(c, b, n - 1);
      LevelConservesIff(c, b, n - 1);
    }
  }

  /** For any configuration and base, accepted or normalised, whatever wraps on the way: all levels
      conserve, up to one rounding, if and only if no node keeps more than one, and then the averages
      conserve up to two. Clamp bounds of at most one are enough. */
  lemma ReportConserves(c: Cfg, b: Base)
    ensures var r := ReportOf(c, b);
            && ((forall i :: 0 <= i < r.levelCount <= MAX_LEVELS ==> LevelConserves(r.levels[i])) <==> NoneAbove(c, b))
            && (NoneAbove(c, b) ==> PPM - 2 <= r.averages.ret + r.averages.red <= PPM)
            && (BoundsFit(c) ==> NoneAbove(c, b))
  {
    var n, r := LevelsOf(c), ReportOf(c, b);
    hide BoundsFit, LevelTotals, LevelOf, LevelConserves, LevelsOf, NodesOf, Above;
    forall i | 0 <= i < n
      ensures LevelConserves(r.levels[i]) <==> Above(c, b, i, NodesOf(c)) == 0
      ensures BoundsFit(c) ==> Above(c, b, i, NodesOf(c)) == 0
    {
      LevelConservesIff(c, b, i);
    }
    if NoneAbove(c, b) {
      AveragesConserve(c, b);
    }
  }

  lemma AveragesConserve(c: Cfg, b: Base)
    requires NoneAbove(c, b)
    ensures var t := ReportOf(c, b).averages;
            PPM - 2 <= t.ret + t.red <= PPM
  {
    hide NoneAbove, LevelTotals, LevelSlots, LevelsOf, NodesOf;
    var n := LevelsOf(c);
    LevelTotalsConserve(c, b, n);
    var t := LevelTotals(c, b, n);
    SplitAveragesLoose(t.ret, t.red, n);
    AverageBetween(t.ret, n, 0, PPM);
    AverageBetween(t.red, n, 0, PPM);
  }

  /** SET_CFG does not look at the clamp bounds: with both above one no level conserves, for any base. */
  lemma HighBoundsLeak(c: Cfg, b: Base, i: nat)
    requires PPM < c.minRetained <= c.maxRetained && i < LevelsOf(c)
    ensures !LevelConserves(LevelOf(c, b, i))
  {
    LevelConservesIff(c, b, i);
    HighNode(c, b, i, NodesOf(c) - 1);
    hide LevelOf, NodeAt, LevelConserves;
  }

  lemma HighNode(c: Cfg, b: Base, i: nat, n: nat)
    requires PPM < c.minRetained <= c.maxRetained && i < LevelsOf(c)
    ensures NodeAt(c, b, i, n).ret > PPM
  {
    hide Shaped, MulPpm, MulQ16, FibWeight, LevelScalar, Cross, Cold;
  }

  // ----- the weights

  /** The floored weights of the first `k` of `n` entries. */
  function WeightSum(k: nat, n: nat): int
    requires k <= n
  {
    if k == 0 then 0 else WeightSum(k - 1, n) + FibWeight(k - 1, n)
  }

  lemma WeightRounds(i: nat, n: nat)
    requires i < n
    ensures FibTotal(n) > 0
    ensures FibWeight(i, n) * FibTotal(n) <= Fib(i + 1) * PPM < FibWeight(i, n) * FibTotal(n) + FibTotal(n)
  {
    FibTotalPositive(n);
    var a, t := Fib(i + 1) * PPM, FibTotal(n);
    assert a == (a / t) * t + a % t;
  }

  lemma WeightSumStep(k: nat, n: nat)
    requires 0 < k <= n
    ensures WeightSum(k, n) == WeightSum(k - 1, n) + FibWeight(k - 1, n)
    ensures FibTotal(k) == FibTotal(k - 1) + Fib(k)
  {
    hide FibWeight, Fib;
  }

  lemma Distributes(a: int, b: int, t: int)
    ensures (a + b) * t == a * t + b * t
  {
  }

  lemma {:induction false} WeightSumBounds(k: nat, n: nat)
    requires k <= n && n > 0
    ensures WeightSum(k, n) * FibTotal(n) <= FibTotal(k) * PPM
    ensures FibTotal(k) * PPM <= WeightSum(k, n) * FibTotal(n) + k * FibTotal(n)
    ensures k > 0 ==> FibTotal(k) * PPM < WeightSum(k, n) * FibTotal(n) + k * FibTotal(n)
    decreases k
  {
    if k > 0 {
      WeightSumStep(k, n);
      hide FibWeight, Fib, FibTotal, WeightSum;
      WeightSumBounds(k - 1, n);
      WeightRounds(k - 1, n);
      Distributes(WeightSum(k - 1, n), FibWeight(k - 1, n), FibTotal(n));
      Distributes(k - 1, 1, FibTotal(n));
    }
  }

  /** The table totals F(n+2) - 1, and the floored weights add up to more than 10^6 - n and at most
      10^6. */
  lemma WeightsAddUp(n: nat)
    requires n > 0
    ensures FibTotal(n) == Fib(n + 2) - 1
    ensures PPM - n < WeightSum(n, n) <= PPM
  {
    hide Fib, FibWeight, FibTotal, WeightSum;
    FibTotalClosed(n);
    FibTotalPositive(n);
    WeightSumBounds(n, n);
    CancelTotal(WeightSum(n, n), n, FibTotal(n));
  }

  lemma CancelTotal(s: int, n: nat, t: nat)
    requires t > 0 && s * t <= t * PPM && t * PPM < s * t + n * t
    ensures PPM - n < s <= PPM
  {
    assert (s + n) * t == s * t + n * t;
    OrderedQuotients(s, 0, PPM, 0, t);
    MulAtMost(s + n, PPM, t);
  }

  lemma MulAtMost(a: int, b: int, t: nat)
    ensures a <= b ==> a * t <= b * t
  {
    assert b * t == a * t + (b - a) * t;
    assert b - a >= 0 ==> (b - a) * t >= 0;
  }

  // ----- the boost overflows

  /** The crosshatch boost is what its formula says exactly for weights up to 35791, the coldness
      boost exactly for weights up to 23860: above, the 32-bit product wraps. */
  lemma BoostExactIff(weight: int)
    requires 0 <= weight <= PPM
    ensures Boost(weight, 120000) == PPM + weight * 120000 / 1000000 <==> weight <= 35791
    ensures Boost(weight, 180000) == PPM + weight * 180000 / 1000000 <==> weight <= 23860
  {
    WrapLoses(weight * 120000);
    WrapLoses(weight * 180000);
  }

  lemma WrapLoses(x: int)
    requires 0 <= x <= 180000000000
    ensures Fit(Word32, x) / 1000000 == x / 1000000 <==> x < U32
    ensures 0 <= Fit(Word32, x) / 1000000 <= 4294
  {
  }

  /** The top level carries at least a third of the weight, so on it both boosts wrap for every
      number of levels. */
  lemma TopBoostWraps(n: nat)
    requires 1 <= n <= MAX_LEVELS
    ensures FibWeight(n - 1, n) > 333000
    ensures Boost(FibWeight(n - 1, n), 120000) < PPM + FibWeight(n - 1, n) * 120000 / 1000000
    ensures Boost(FibWeight(n - 1, n), 180000) < PPM + FibWeight(n - 1, n) * 180000 / 1000000
  {
    TopWeight(n);
    FibWeightRises(n - 1, n - 1, n);
    var w := FibWeight(n - 1, n);
    hide FibWeight;
    WrapLoses(w * 120000);
    WrapLoses(w * 180000);
  }

  lemma TotalAtMostTriple(n: nat)
    requires n >= 1
    ensures 0 < FibTotal(n) <= 3 * Fib(n)
  {
    FibTotalClosed(n);
    FibGrows(n - 1, n);
    FibTotalPositive(n);
    assert Fib(n + 2) == Fib(n + 1) + Fib(n) && Fib(n + 1) == Fib(n) + Fib(n - 1);
  }

  lemma TopWeight(n: nat)
    requires n >= 1
    ensures FibWeight(n - 1, n) > 333000
  {
    hide Fib, FibTotal, FibWeight;
    TotalAtMostTriple(n);
    WeightRounds(n - 1, n);
    var f, t, w := Fib(n), FibTotal(n), FibWeight(n - 1, n);
    assert (w + 1) * t == w * t + t;
    MulAtMost(w + 1, 333333, t);
  }
}
