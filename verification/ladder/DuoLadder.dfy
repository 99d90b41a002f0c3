/** The 22-level retention ladder of one duo pair (dawnhex_kmod.c). Every formula is written once
    and read twice: in 32-bit words as the module computes it, and over the integers. */
module DuoLadder {
  import opened FixedPoint
  import opened LadderSums

  const LEVELS: nat := 22
  const NODES: nat := 12
  const MIN_RETAINED: int := 10200
  const MAX_RETAINED: int := 120000
  const LEVEL_GAIN: int := 144000
  const NODE_GAIN: int := 21000
  const PHASE_GAIN: int := 10200
  const ARM: int := 77857
  const ADDER: int := 27525
  const MODIFIER: int := 67830
  const U_SCALAR: int := 114688
  const KNOT: int := 32086
  const FLAGS: u32 := 3

  const INOUT_OUT: u32 := 1
  const INOUT_IN: u32 := 2
  const CROSSED: u32 := 3

  /** The fields of a pair that its ladder depends on. */
  datatype Knobs = Knobs(mode: u32, quotient: u32, refraction: u32, energy: u32, pressure: u32)

  function DefaultQuotient(mode: u32): u32 {
    if mode == INOUT_OUT || mode == INOUT_IN then 1000000 else if mode == CROSSED then 1250000 else 0
  }

  function DefaultRefraction(mode: u32): u32 {
    if mode == INOUT_OUT then 1010200 else if mode == INOUT_IN then 1020300
    else if mode == CROSSED then 1044400 else 1000000
  }

  /** What add and pulse keep true of every pair. */
  predicate InRange(k: Knobs) {
    && k.energy <= PPM && k.pressure <= PPM
    && k.quotient == DefaultQuotient(k.mode) && k.refraction == DefaultRefraction(k.mode)
  }

  // ----- one node

  function RawBase(w: Width, k: Knobs): int {
    Fit(w, Fit(w, MIN_RETAINED + Fit(w, 1000000 - k.energy) / 20) + k.pressure / 25)
  }

  function Base(w: Width, k: Knobs): int {
    var raw := RawBase(w, k);
    var tuned :=
      if k.mode == INOUT_OUT then MulPpm(w, raw, 980000)
      else if k.mode == INOUT_IN then MulPpm(w, raw, 1020000)
      else if k.mode == CROSSED then MulPpm(w, raw, 960000)
      else raw;
    Clamp(tuned, MIN_RETAINED, MAX_RETAINED)
  }

  function Lift(w: Width, base: int, slot: int): int {
    var v := Clamp(MulQ16(w, MulQ16(w, base, ARM), U_SCALAR), MIN_RETAINED, MAX_RETAINED);
    var add := MulQ16(w, 10200 + slot * 1275, ADDER);
    MulQ16(w, Clamp(Fit(w, v + add), MIN_RETAINED, MAX_RETAINED), MODIFIER)
  }

  function LevelScalar(w: Width, weight: int): int {
    Fit(w, PPM - MulPpm(w, weight, LEVEL_GAIN))
  }

  function NodeScalar(w: Width, n: int): int {
    Fit(w, PPM - n * NODE_GAIN / 11)
  }

  function PhaseScalar(w: Width, i: int, n: int): int {
    Fit(w, Fit(w, PPM - (i + 1) * PHASE_GAIN / 100) - n * PHASE_GAIN / 200)
  }

  function Shape(w: Width, v: int, weight: int, i: int, n: int): int {
    MulPpm(w, MulPpm(w, MulPpm(w, v, LevelScalar(w, weight)), NodeScalar(w, n)), PhaseScalar(w, i, n))
  }

  function Bias(w: Width, v: int, k: Knobs): int {
    var v1 := MulPpm(w, v, Clamp(k.refraction, 900000, 1200000));
    var v2 := MulPpm(w, v1, Clamp(k.quotient, 800000, 1250000));
    var v3 := if k.mode == CROSSED then MulPpm(w, v2, 970000) else v2;
    MulPpm(w, MulPpm(w, v3, 940000), 980000)
  }

  function Retained(w: Width, k: Knobs, base: int, weight: int, i: int, n: int): (r: int)
    ensures MIN_RETAINED <= r <= MAX_RETAINED
  {
    Clamp(Bias(w, Shape(w, Lift(w, base, n % 4), weight, i, n), k), MIN_RETAINED, MAX_RETAINED)
  }

  function Cross(w: Width, k: Knobs, n: int): (r: int)
    ensures 0 <= r <= PPM
  {
    var a := Fit(w, k.quotient / 3 + Clamp(k.refraction, 0, 1500000) / 4);
    var b := Fit(w, Fit(w, a + k.energy / 5) + k.pressure / 5);
    Clamp(MulPpm(w, b, Fit(w, PPM - n % 4 * 15000)), 0, 1000000)
  }

  function Cold(w: Width, k: Knobs, weight: int, n: int): (r: int)
    ensures 0 <= r <= PPM
  {
    var a := Fit(w, Fit(w, PPM - k.energy) / 2 + k.pressure / 2);
    var b := MulPpm(w, a, Fit(w, PPM + weight / 8));
    Clamp(MulPpm(w, b, PPM + n % 3 * 10000), 0, 1000000)
  }

  function NodeEnergy(w: Width, v: int): int {
    MulQ16(w, v, KNOT)
  }

  // ----- one level, the whole ladder

  function NodeAt(w: Width, k: Knobs, base: int, i: nat, n: nat): NodeShare
    requires i < LEVELS
  {
    var weight := FibWeight(i, LEVELS);
    var v := Retained(w, k, base, weight, i, n);
    NodeShare(v, Fit(w, PPM - v), Cross(w, k, n), Cold(w, k, weight, n), NodeEnergy(w, v))
  }

  /** The sums over the first `n` nodes of level `i`. */
  function NodeTotals(w: Width, k: Knobs, base: int, i: nat, n: nat): Totals
    requires i < LEVELS
  {
    if n == 0 then NO_TOTALS else AddShare(NodeTotals(w, k, base, i, n - 1), NodeAt(w, k, base, i, n - 1))
  }

  datatype Level = Level(
    index: int, fib: int, weight: int, nodeCount: int,
    retained: int, reduction: int, crosshatch: int, coldness: int, energy: int, pressure: int,
    mips: seq<u32>)

  function LevelFrom(w: Width, i: nat, pressure: int, avg: Totals): Level
    requires i < LEVELS
  {
    Level(i + 1, Fib(i + 1), FibWeight(i, LEVELS), NODES,
          avg.ret, avg.red, avg.cross, avg.cold, avg.energy, pressure, Mips(w, avg.ret))
  }

  function LevelOf(w: Width, k: Knobs, base: int, i: nat): Level
    requires i < LEVELS
  {
    LevelFrom(w, i, k.pressure, Averages(w, NodeTotals(w, k, base, i, NODES), NODES))
  }

  function AddLevel(t: Totals, l: Level): Totals {
    Totals(t.ret + l.retained, t.red + l.reduction, t.cross + l.crosshatch, t.cold + l.coldness, t.energy + l.energy)
  }

  /** The sums of the level averages over the first `n` levels. */
  function LevelTotals(w: Width, k: Knobs, base: int, n: nat): Totals
    requires n <= LEVELS
  {
    if n == 0 then NO_TOTALS else AddLevel(LevelTotals(w, k, base, n - 1), LevelOf(w, k, base, n - 1))
  }

  datatype Simplex = Simplex(
    levelCount: int, nodeCount: int, base: int,
    recRetained: int, recReduction: int, recCrosshatch: int, recColdness: int, recEnergy: int,
    flags: u32, levels: seq<Level>)

  /** The memset-zero ladder of a pair that was never recomputed. */
  const NO_SIMPLEX := Simplex(0, 0, 0, 0, 0, 0, 0, 0, 0, [])

  function SimplexFrom(base: int, avg: Totals, levels: seq<Level>): Simplex {
    Simplex(LEVELS, NODES, base, avg.ret, avg.red, avg.cross, avg.cold, avg.energy, FLAGS, levels)
  }

  function LevelSeq(w: Width, k: Knobs, base: int, n: nat): (r: seq<Level>)
    requires n <= LEVELS
    ensures |r| == n
  {
    seq(n, i requires 0 <= i < n => LevelOf(w, k, base, i))
  }

  function LadderFrom(w: Width, k: Knobs, base: int): Simplex {
    SimplexFrom(base, Averages(w, LevelTotals(w, k, base, LEVELS), LEVELS), LevelSeq(w, k, base, LEVELS))
  }

  function Ladder(w: Width, k: Knobs): Simplex {
    LadderFrom(w, k, Base(w, k))
  }

  // ----- no word overflows, and every stage keeps the order

  lemma BaseFacts(k: Knobs)
    requires InRange(k)
    ensures Base(Word32, k) == Base(Unbounded, k) && RawBase(Word32, k) == RawBase(Unbounded, k)
    ensures 0 <= RawBase(Unbounded, k) <= 100200
    ensures MIN_RETAINED <= Base(Unbounded, k) <= MAX_RETAINED
  {
    var raw := RawBase(Unbounded, k);
    MulPpmMono(raw, 980000, 100200, 1020000);
    MulPpmMono(raw, 1020000, 100200, 1020000);
    MulPpmMono(raw, 960000, 100200, 1020000);
  }

  /** Pair energy compresses, pair pressure preserves. */
  lemma BaseMono(k: Knobs, l: Knobs)
    requires InRange(k) && InRange(l) && k.mode == l.mode
    requires k.energy >= l.energy && k.pressure <= l.pressure
    ensures SameKind(k, l) && MIN_RETAINED <= Base(Unbounded, k) <= Base(Unbounded, l) <= MAX_RETAINED
  {
    BaseFacts(k);
    var r, s := RawBase(Unbounded, k), RawBase(Unbounded, l);
    assert r <= s;
    MulPpmMono(r, 980000, s, 980000);
    MulPpmMono(r, 1020000, s, 1020000);
    MulPpmMono(r, 960000, s, 960000);
  }

  lemma LiftFacts(base: int, base': int, slot: int)
    requires 0 <= base <= base' <= MAX_RETAINED && 0 <= slot < 4
    ensures Lift(Word32, base, slot) == Lift(Unbounded, base, slot)
    ensures 0 <= Lift(Unbounded, base, slot) <= Lift(Unbounded, base', slot) <= 124200
  {
    MulQ16Mono(base, base', ARM);
    MulQ16Mono(base', 120000, ARM);
    var a, a' := MulQ16(Unbounded, base, ARM), MulQ16(Unbounded, base', ARM);
    MulQ16Mono(a, a', U_SCALAR);
    MulQ16Mono(a', 142561, U_SCALAR);
    MulQ16Mono(10200 + slot * 1275, 14025, ADDER);
    var add := MulQ16(Unbounded, 10200 + slot * 1275, ADDER);
    var c := Clamp(Clamp(MulQ16(Unbounded, a, U_SCALAR), MIN_RETAINED, MAX_RETAINED) + add, MIN_RETAINED, MAX_RETAINED);
    var c' := Clamp(Clamp(MulQ16(Unbounded, a', U_SCALAR), MIN_RETAINED, MAX_RETAINED) + add,
                    MIN_RETAINED, MAX_RETAINED);
    MulQ16Mono(c, c', MODIFIER);
    MulQ16Mono(c', 120000, MODIFIER);
  }

  lemma ScalarFacts(weight: int, weight': int, i: int, i': int, n: int)
    requires 0 <= weight' <= weight <= PPM && 0 <= i' <= i < LEVELS && 0 <= n < NODES
    ensures LevelScalar(Word32, weight) == LevelScalar(Unbounded, weight)
    ensures NodeScalar(Word32, n) == NodeScalar(Unbounded, n)
    ensures PhaseScalar(Word32, i, n) == PhaseScalar(Unbounded, i, n)
    ensures 0 <= LevelScalar(Unbounded, weight) <= LevelScalar(Unbounded, weight') <= PPM
    ensures 0 <= NodeScalar(Unbounded, n) <= PPM
    ensures 0 <= PhaseScalar(Unbounded, i, n) <= PhaseScalar(Unbounded, i', n) <= PPM
  {
    MulPpmMono(weight', LEVEL_GAIN, weight, LEVEL_GAIN);
    MulPpmMono(weight, LEVEL_GAIN, 1000000, LEVEL_GAIN);
  }

  lemma ShapeFacts(v: int, v': int, weight: int, weight': int, i: int, i': int, n: int)
    requires 0 <= v <= v' <= 124200
    requires 0 <= weight' <= weight <= PPM && 0 <= i' <= i < LEVELS && 0 <= n < NODES
    ensures Shape(Word32, v, weight, i, n) == Shape(Unbounded, v, weight, i, n)
    ensures 0 <= Shape(Unbounded, v, weight, i, n) <= Shape(Unbounded, v', weight', i', n) <= 124200
  {
    ScalarFacts(weight, weight', i, i', n);
    var a, a' := LevelScalar(Unbounded, weight), LevelScalar(Unbounded, weight');
    var b := NodeScalar(Unbounded, n);
    var c, c' := PhaseScalar(Unbounded, i, n), PhaseScalar(Unbounded, i', n);
    hide LevelScalar, NodeScalar, PhaseScalar;
    ThreeProducts(v, a, b, c, v', a', b, c');
  }

  function Product3(w: Width, v: int, a: int, b: int, c: int): int {
    MulPpm(w, MulPpm(w, MulPpm(w, v, a), b), c)
  }

  lemma ThreeProducts(v: int, a: int, b: int, c: int, v': int, a': int, b': int, c': int)
    requires 0 <= v <= v' <= 124200 && 0 <= a <= a' <= PPM && 0 <= b <= b' <= PPM && 0 <= c <= c' <= PPM
    ensures Product3(Word32, v, a, b, c) == Product3(Unbounded, v, a, b, c)
    ensures 0 <= Product3(Unbounded, v, a, b, c) <= Product3(Unbounded, v', a', b', c') <= 124200
  {
    MulPpmMono(v, a, v', a');
    MulPpmMono(v', a', 124200, 1000000);
    var x, x' := MulPpm(Unbounded, v, a), MulPpm(Unbounded, v', a');
    MulPpmMono(x, b, x', b');
    MulPpmMono(x', b', 124200, 1000000);
    var y, y' := MulPpm(Unbounded, x, b), MulPpm(Unbounded, x', b');
    assert MulPpm(Word32, v, a) == x && MulPpm(Word32, x, b) == y;
    MulPpmMono(y, c, y', c');
    MulPpmMono(y', c', 124200, 1000000);
  }

  lemma BiasFacts(v: int, v': int, k: Knobs)
    requires 0 <= v <= v' <= 124200
    ensures Bias(Word32, v, k) == Bias(Unbounded, v, k)
    ensures 0 <= Bias(Unbounded, v, k) <= Bias(Unbounded, v', k)
  {
    var r, q := Clamp(k.refraction, 900000, 1200000), Clamp(k.quotient, 800000, 1250000);
    MulPpmMono(v, r, v', r);
    MulPpmMono(v', r, 124200, 1200000);
    var a, a' := MulPpm(Unbounded, v, r), MulPpm(Unbounded, v', r);
    MulPpmMono(a, q, a', q);
    MulPpmMono(a', q, 149040, 1250000);
    var b, b' := MulPpm(Unbounded, a, q), MulPpm(Unbounded, a', q);
    MulPpmMono(b, 970000, b', 970000);
    MulPpmMono(b', 970000, 186300, 1000000);
    var c, c' := if k.mode == CROSSED then MulPpm(Unbounded, b, 970000) else b,
                 if k.mode == CROSSED then MulPpm(Unbounded, b', 970000) else b';
    MulPpmMono(c, 940000, c', 940000);
    MulPpmMono(c', 940000, 186300, 1000000);
    var d, d' := MulPpm(Unbounded, c, 940000), MulPpm(Unbounded, c', 940000);
    MulPpmMono(d, 980000, d', 980000);
    MulPpmMono(d', 980000, 186300, 1000000);
  }

  /** Knobs that differ at most in energy and pressure. */
  predicate SameKind(k: Knobs, l: Knobs) {
    k.mode == l.mode && k.quotient == l.quotient && k.refraction == l.refraction
  }

  /** A node retains less from a smaller base, with a larger weight, or on a higher level. */
  lemma RetainedFacts(k: Knobs, l: Knobs, base: int, base': int, weight: int, weight': int, i: int, i': int, n: int)
    requires SameKind(k, l) && 0 <= base <= base' <= MAX_RETAINED
    requires 0 <= weight' <= weight <= PPM && 0 <= i' <= i < LEVELS && 0 <= n < NODES
    ensures Retained(Word32, k, base, weight, i, n) == Retained(Unbounded, k, base, weight, i, n)
    ensures Retained(Unbounded, k, base, weight, i, n) <= Retained(Unbounded, l, base', weight', i', n)
  {
    LiftFacts(base, base', n % 4);
    var v, v' := Lift(Unbounded, base, n % 4), Lift(Unbounded, base', n % 4);
    ShapeFacts(v, v', weight, weight', i, i', n);
    var s, s' := Shape(Unbounded, v, weight, i, n), Shape(Unbounded, v', weight', i', n);
    BiasFacts(s, s', k);
    assert Bias(Unbounded, s', k) == Bias(Unbounded, s', l);
    hide Lift, Shape, Bias;
  }

  lemma CrossExact(k: Knobs, n: int)
    requires InRange(k) && 0 <= n < NODES
    ensures Cross(Word32, k, n) == Cross(Unbounded, k, n)
  {
    var b := k.quotient / 3 + Clamp(k.refraction, 0, 1500000) / 4 + k.energy / 5 + k.pressure / 5;
    assert 0 <= b <= 1100000;
    MulPpmMono(b, PPM - n % 4 * 15000, 1100000, 1000000);
  }

  lemma ColdExact(k: Knobs, weight: int, n: int)
    requires InRange(k) && 0 <= weight <= PPM && 0 <= n < NODES
    ensures Cold(Word32, k, weight, n) == Cold(Unbounded, k, weight, n)
  {
    var a := (PPM - k.energy) / 2 + k.pressure / 2;
    MulPpmMono(a, PPM + weight / 8, 1000000, 1125000);
    var b := MulPpm(Unbounded, a, PPM + weight / 8);
    MulPpmMono(b, PPM + n % 3 * 10000, 1125000, 1020000);
  }

  // ----- sums and averages

  predicate NodeInBounds(n: NodeShare) {
    && MIN_RETAINED <= n.ret <= MAX_RETAINED && n.red == PPM - n.ret
    && 0 <= n.cross <= PPM && 0 <= n.cold <= PPM && 0 <= n.energy <= PPM
  }

  lemma NodeExact(k: Knobs, base: int, i: nat, n: nat)
    requires InRange(k) && 0 <= base <= MAX_RETAINED && i < LEVELS && n < NODES
    ensures NodeAt(Word32, k, base, i, n) == NodeAt(Unbounded, k, base, i, n)
    ensures NodeInBounds(NodeAt(Unbounded, k, base, i, n))
  {
    var weight := FibWeight(i, LEVELS);
    FibWeightRises(i, i, LEVELS);
    RetainedFacts(k, k, base, base, weight, weight, i, i, n);
    CrossExact(k, n);
    ColdExact(k, weight, n);
    var v := Retained(Unbounded, k, base, weight, i, n);
    MulQ16Mono(v, 120000, KNOT);
    hide Retained, Cross, Cold, FibWeight, InRange;
  }

  /** Sums over `n` nodes stay inside `n` times the bounds of one. */
  predicate SumInBounds(t: Totals, n: nat) {
    && MIN_RETAINED * n <= t.ret <= MAX_RETAINED * n && t.ret + t.red == PPM * n
    && 0 <= t.cross <= PPM * n && 0 <= t.cold <= PPM * n && 0 <= t.energy <= PPM * n
  }

  lemma {:induction false} NodeTotalsExact(k: Knobs, base: int, i: nat, n: nat)
    requires InRange(k) && 0 <= base <= MAX_RETAINED && i < LEVELS && n <= NODES
    ensures NodeTotals(Word32, k, base, i, n) == NodeTotals(Unbounded, k, base, i, n)
    ensures SumInBounds(NodeTotals(Unbounded, k, base, i, n), n)
    decreases n
  {
    hide InRange, NodeTotals, NodeAt;
    NodeTotalsStep(Word32, k, base, i, n);
    NodeTotalsStep(Unbounded, k, base, i, n);
    if n > 0 {
      NodeTotalsExact(k, base, i, n - 1);
      NodeExact(k, base, i, n - 1);
    }
  }

  lemma NodeTotalsStep(w: Width, k: Knobs, base: int, i: nat, n: nat)
    requires i < LEVELS
    ensures n > 0 ==>
              NodeTotals(w, k, base, i, n) == AddShare(NodeTotals(w, k, base, i, n - 1), NodeAt(w, k, base, i, n - 1))
    ensures n == 0 ==> NodeTotals(w, k, base, i, n) == NO_TOTALS
  {
  }

  /** Level averages stay inside the bounds of one node, and retained plus reduction is one up to
      the two roundings. */
  predicate LevelInBounds(l: Level) {
    && MIN_RETAINED <= l.retained <= MAX_RETAINED && PPM - 1 <= l.retained + l.reduction <= PPM
    && 0 <= l.crosshatch <= PPM && 0 <= l.coldness <= PPM && 0 <= l.energy <= PPM
  }

  lemma NodeAverages(t: Totals)
    requires SumInBounds(t, NODES)
    ensures Averages(Word32, t, NODES) == Averages(Unbounded, t, NODES)
    ensures var a := Averages(Unbounded, t, NODES);
            && MIN_RETAINED <= a.ret <= MAX_RETAINED && PPM - 1 <= a.ret + a.red <= PPM
            && 0 <= a.cross <= PPM && 0 <= a.cold <= PPM && 0 <= a.energy <= PPM
  {
  }

  lemma LevelExact(k: Knobs, base: int, i: nat)
    requires InRange(k) && 0 <= base <= MAX_RETAINED && i < LEVELS
    ensures LevelOf(Word32, k, base, i) == LevelOf(Unbounded, k, base, i)
    ensures LevelInBounds(LevelOf(Unbounded, k, base, i))
  {
    hide NodeTotals, InRange, FibWeight, Fib, Mips, Averages, SumInBounds;
    NodeTotalsExact(k, base, i, NODES);
    var t := NodeTotals(Unbounded, k, base, i, NODES);
    NodeAverages(t);
    MipsExact(Averages(Unbounded, t, NODES).ret);
  }

  predicate LevelSumInBounds(t: Totals, n: nat) {
    && MIN_RETAINED * n <= t.ret <= MAX_RETAINED * n && (PPM - 1) * n <= t.ret + t.red <= PPM * n && t.red <= PPM * n
    && 0 <= t.cross <= PPM * n && 0 <= t.cold <= PPM * n && 0 <= t.energy <= PPM * n
  }

  lemma LevelTotalsStep(w: Width, k: Knobs, base: int, n: nat)
    requires n <= LEVELS
    ensures n > 0 ==>
              LevelTotals(w, k, base, n) == AddLevel(LevelTotals(w, k, base, n - 1), LevelOf(w, k, base, n - 1))
    ensures n == 0 ==> LevelTotals(w, k, base, n) == NO_TOTALS
  {
  }

  lemma {:induction false} LevelTotalsExact(k: Knobs, base: int, n: nat)
    requires InRange(k) && 0 <= base <= MAX_RETAINED && n <= LEVELS
    ensures LevelTotals(Word32, k, base, n) == LevelTotals(Unbounded, k, base, n)
    ensures LevelSumInBounds(LevelTotals(Unbounded, k, base, n), n)
    decreases n
  {
    hide InRange, LevelTotals, LevelOf;
    LevelTotalsStep(Word32, k, base, n);
    LevelTotalsStep(Unbounded, k, base, n);
    if n > 0 {
      LevelTotalsExact(k, base, n - 1);
      LevelExact(k, base, n - 1);
    }
  }

  lemma LevelAverages(t: Totals)
    requires LevelSumInBounds(t, LEVELS)
    ensures Averages(Word32, t, LEVELS) == Averages(Unbounded, t, LEVELS)
    ensures var a := Averages(Unbounded, t, LEVELS);
            && MIN_RETAINED <= a.ret <= MAX_RETAINED && PPM - 2 <= a.ret + a.red <= PPM
            && 0 <= a.cross <= PPM && 0 <= a.cold <= PPM && 0 <= a.energy <= PPM
  {
  }

  lemma LevelSeqExact(k: Knobs, base: int)
    requires InRange(k) && 0 <= base <= MAX_RETAINED
    ensures LevelSeq(Word32, k, base, LEVELS) == LevelSeq(Unbounded, k, base, LEVELS)
    ensures forall l :: l in LevelSeq(Unbounded, k, base, LEVELS) ==> LevelInBounds(l)
  {
    hide LevelOf, InRange, LevelInBounds;
    forall i | 0 <= i < LEVELS
      ensures LevelOf(Word32, k, base, i) == LevelOf(Unbounded, k, base, i)
      ensures LevelInBounds(LevelOf(Unbounded, k, base, i))
    {
      LevelExact(k, base, i);
    }
  }

  /** Ladder arithmetic is exact in 32-bit words for every pair the module can hold: no subtraction
      underflows and nothing wraps, so the words spell the integer ladder. */
  lemma LadderExact(k: Knobs)
    requires InRange(k)
    ensures Base(Word32, k) == Base(Unbounded, k) && Ladder(Word32, k) == Ladder(Unbounded, k)
  {
    BaseFacts(k);
    var base := Base(Unbounded, k);
    hide LevelSeq, LevelTotals, Base, InRange, Averages;
    LevelTotalsExact(k, base, LEVELS);
    LevelAverages(LevelTotals(Unbounded, k, base, LEVELS));
    LevelSeqExact(k, base);
  }

  /** In every reachable pair the retained values lie in [10200, 120000], crosshatch and coldness in
      [0, 10^6], and retained and reduction add up to one within the roundings. */
  lemma LadderInBounds(k: Knobs)
    requires InRange(k)
    ensures var s := Ladder(Word32, k);
            && (forall l :: l in s.levels ==> LevelInBounds(l))
            && MIN_RETAINED <= s.recRetained <= MAX_RETAINED
            && PPM - 2 <= s.recRetained + s.recReduction <= PPM
            && 0 <= s.recCrosshatch <= PPM && 0 <= s.recColdness <= PPM
  {
    hide LevelSeq, LevelTotals, Base, RawBase, InRange, Averages, LevelInBounds;
    LadderExact(k);
    BaseFacts(k);
    var base := Base(Unbounded, k);
    LevelTotalsExact(k, base, LEVELS);
    LevelAverages(LevelTotals(Unbounded, k, base, LEVELS));
    LevelSeqExact(k, base);
  }

  // ----- monotonicity

  lemma {:induction false} NodeTotalsMono(k: Knobs, l: Knobs, base: int, base': int, i: nat, i': nat, n: nat)
    requires SameKind(k, l) && 0 <= base <= base' <= MAX_RETAINED
    requires i' <= i < LEVELS && n <= NODES
    ensures 0 <= NodeTotals(Unbounded, k, base, i, n).ret <= NodeTotals(Unbounded, l, base', i', n).ret
    decreases n
  {
    hide SameKind, NodeTotals, NodeAt;
    NodeTotalsStep(Unbounded, k, base, i, n);
    NodeTotalsStep(Unbounded, l, base', i', n);
    if n > 0 {
      NodeTotalsMono(k, l, base, base', i, i', n - 1);
      NodeMono(k, l, base, base', i, i', n - 1);
    }
  }

  lemma NodeMono(k: Knobs, l: Knobs, base: int, base': int, i: nat, i': nat, n: nat)
    requires SameKind(k, l) && 0 <= base <= base' <= MAX_RETAINED && i' <= i < LEVELS && n < NODES
    ensures 0 <= NodeAt(Unbounded, k, base, i, n).ret <= NodeAt(Unbounded, l, base', i', n).ret
  {
    hide Retained, Cross, Cold, NodeEnergy, FibWeight, SameKind;
    FibWeightRises(i', i, LEVELS);
    RetainedFacts(k, l, base, base', FibWeight(i, LEVELS), FibWeight(i', LEVELS), i, i', n);
  }

  /** The order of two levels: retained value and every mip. */
  predicate LevelBelow(a: Level, b: Level) {
    && a.retained <= b.retained
    && |a.mips| == |b.mips| == 9
    && forall m :: 0 <= m < 9 ==> a.mips[m] <= b.mips[m]
  }

  predicate ProfileFalls(mips: seq<u32>) {
    |mips| == 9 && forall m :: 0 < m < 9 ==> mips[m] <= mips[m - 1]
  }

  lemma LevelMono(k: Knobs, l: Knobs, base: int, base': int, i: nat, i': nat)
    requires SameKind(k, l) && 0 <= base <= base' <= MAX_RETAINED && i' <= i < LEVELS
    ensures LevelBelow(LevelOf(Unbounded, k, base, i), LevelOf(Unbounded, l, base', i'))
    ensures ProfileFalls(LevelOf(Unbounded, k, base, i).mips)
  {
    hide NodeTotals, FibWeight, Fib, SameKind, MipAt;
    NodeTotalsMono(k, l, base, base', i, i', NODES);
    var t, t' := NodeTotals(Unbounded, k, base, i, NODES), NodeTotals(Unbounded, l, base', i', NODES);
    MipsFall(t.ret / NODES, t'.ret / NODES);
  }

  /** Along one ladder the retained level and its mips never rise, and no mip profile rises. */
  lemma LadderFalls(k: Knobs)
    requires InRange(k)
    ensures LevelsFall(Ladder(Word32, k).levels)
  {
    hide LevelSeq, LevelTotals, Base, RawBase, InRange, LevelsFall;
    LadderExact(k);
    BaseFacts(k);
    LevelSeqFalls(k, Base(Unbounded, k));
  }

  predicate LevelsFall(levels: seq<Level>) {
    && |levels| == LEVELS
    && (forall i, j :: 0 <= i <= j < LEVELS ==> LevelBelow(levels[j], levels[i]))
    && (forall i :: 0 <= i < LEVELS ==> ProfileFalls(levels[i].mips))
  }

  lemma LevelSeqFalls(k: Knobs, base: int)
    requires 0 <= base <= MAX_RETAINED
    ensures LevelsFall(LevelSeq(Unbounded, k, base, LEVELS))
  {
    hide LevelOf, LevelBelow, ProfileFalls;
    forall i, j | 0 <= i <= j < LEVELS
      ensures LevelBelow(LevelOf(Unbounded, k, base, j), LevelOf(Unbounded, k, base, i))
    {
      LevelMono(k, k, base, base, j, i);
    }
    forall i | 0 <= i < LEVELS
      ensures ProfileFalls(LevelOf(Unbounded, k, base, i).mips)
    {
      LevelMono(k, k, base, base, i, i);
    }
  }

  lemma LevelRetained(k: Knobs, base: int, i: nat)
    requires i < LEVELS
    ensures LevelOf(Unbounded, k, base, i).retained == NodeTotals(Unbounded, k, base, i, NODES).ret / NODES
  {
    hide NodeTotals, Mips, Fib, FibWeight;
  }

  lemma {:induction false} LevelTotalsMono(k: Knobs, l: Knobs, base: int, base': int, n: nat)
    requires SameKind(k, l) && 0 <= base <= base' <= MAX_RETAINED && n <= LEVELS
    ensures 0 <= LevelTotals(Unbounded, k, base, n).ret <= LevelTotals(Unbounded, l, base', n).ret
    decreases n
  {
    hide SameKind, LevelOf, LevelTotals, NodeTotals;
    LevelTotalsStep(Unbounded, k, base, n);
    LevelTotalsStep(Unbounded, l, base', n);
    if n > 0 {
      LevelTotalsMono(k, l, base, base', n - 1);
      LevelRetained(k, base, n - 1);
      LevelRetained(l, base', n - 1);
      NodeTotalsMono(k, l, base, base', n - 1, n - 1, NODES);
    }
  }

  predicate LadderBelow(s: Simplex, t: Simplex) {
    && s.base <= t.base && s.recRetained <= t.recRetained && |s.levels| == |t.levels|
    && forall i :: 0 <= i < |s.levels| ==> LevelBelow(s.levels[i], t.levels[i])
  }

  /** Every retained value of the ladder (base, level, mip, recursive) is non-increasing in the
      pair's energy and non-decreasing in its pressure. */
  lemma LadderMonotone(k: Knobs, l: Knobs)
    requires InRange(k) && InRange(l) && k.mode == l.mode
    requires k.energy >= l.energy && k.pressure <= l.pressure
    ensures LadderBelow(Ladder(Word32, k), Ladder(Word32, l))
  {
    hide Base, InRange, LadderBelow, LadderFrom, SameKind;
    LadderExact(k);
    LadderExact(l);
    BaseMono(k, l);
    LadderFromMono(k, l, Base(Unbounded, k), Base(Unbounded, l));
  }

  lemma LadderFromMono(k: Knobs, l: Knobs, b: int, b': int)
    requires SameKind(k, l) && 0 <= b <= b' <= MAX_RETAINED
    ensures LadderBelow(LadderFrom(Unbounded, k, b), LadderFrom(Unbounded, l, b'))
  {
    hide LevelOf, LevelTotals, LevelBelow, SameKind;
    LevelTotalsMono(k, l, b, b', LEVELS);
    forall i | 0 <= i < LEVELS
      ensures LevelBelow(LevelOf(Unbounded, k, b, i), LevelOf(Unbounded, l, b', i))
    {
      LevelMono(k, l, b, b', i, i);
    }
  }
}
