/** How the figures of a duo ladder other than the retained ones move with the pair, and how its modes
    compare. */
module DuoOrder {
  import opened FixedPoint
  import opened LadderSums
  import opened DuoLadder

  /** For equal energy and pressure the inward mode keeps at least what an unknown mode keeps, that at least
      what the outward mode keeps, and that at least what the crossed mode keeps. */
  lemma ModesInOrder(k: Knobs, l: Knobs)
    requires InRange(k) && InRange(l) && k.energy == l.energy && k.pressure == l.pressure
    requires Rank(k.mode) <= Rank(l.mode)
    ensures Base(Word32, k) <= Base(Word32, l)
  {
    BaseFacts(k);
    BaseFacts(l);
    var r := RawBase(Unbounded, k);
    assert r == RawBase(Unbounded, l);
    ByOne(r);
    MulPpmMono(r, 960000, r, 980000);
    MulPpmMono(r, 980000, r, 1000000);
    MulPpmMono(r, 1000000, r, 1020000);
    hide MulPpm, RawBase;
  }

  /** The order of the modes by what they keep. */
  function Rank(mode: u32): nat {
    if mode == 3 then 0 else if mode == 1 then 1 else if mode == 2 then 3 else 2
  }

  lemma ByOne(r: int)
    ensures MulPpm(Unbounded, r, 1000000) == r
  {
  }

  // ----- coldness

  lemma TwiceMono(a: int, b: int, f: int, g: int)
    requires 0 <= a <= b && 0 <= f && 0 <= g
    ensures MulPpm(Unbounded, MulPpm(Unbounded, a, f), g) <= MulPpm(Unbounded, MulPpm(Unbounded, b, f), g)
  {
    hide MulPpm;
    MulPpmMono(a, f, b, f);
    MulPpmMono(MulPpm(Unbounded, a, f), g, MulPpm(Unbounded, b, f), g);
  }

  lemma ColdSums(k: Knobs, l: Knobs)
    requires InRange(k) && InRange(l) && k.energy >= l.energy && k.pressure <= l.pressure
    ensures 0 <= (PPM - k.energy) / 2 + k.pressure / 2 <= (PPM - l.energy) / 2 + l.pressure / 2
  {
  }

  /** A colder pair has less energy and more pressure. */
  lemma ColdMono(k: Knobs, l: Knobs, weight: int, n: int)
    requires InRange(k) && InRange(l) && k.energy >= l.energy && k.pressure <= l.pressure
    requires 0 <= weight && 0 <= n
    ensures Cold(Unbounded, k, weight, n) <= Cold(Unbounded, l, weight, n)
  {
    hide MulPpm, InRange;
    ColdSums(k, l);
    TwiceMono((PPM - k.energy) / 2 + k.pressure / 2, (PPM - l.energy) / 2 + l.pressure / 2, PPM + weight / 8,
              PPM + n % 3 * 10000);
  }

  lemma {:induction false} ColdTotals(k: Knobs, l: Knobs, base: int, base': int, i: nat, n: nat)
    requires InRange(k) && InRange(l) && k.energy >= l.energy && k.pressure <= l.pressure && i < LEVELS
    ensures 0 <= NodeTotals(Unbounded, k, base, i, n).cold <= NodeTotals(Unbounded, l, base', i, n).cold
    decreases n
  {
    hide InRange, NodeTotals, Cold, Cross, Retained, FibWeight;
    NodeTotalsStep(Unbounded, k, base, i, n);
    NodeTotalsStep(Unbounded, l, base', i, n);
    if n > 0 {
      ColdTotals(k, l, base, base', i, n - 1);
      ColdMono(k, l, FibWeight(i, LEVELS), n - 1);
    }
  }

  /** The averages of a level, one by one. */
  lemma LevelFigures(k: Knobs, base: int, i: nat)
    requires i < LEVELS
    ensures var l, t := LevelOf(Unbounded, k, base, i), NodeTotals(Unbounded, k, base, i, NODES);
            l.coldness == t.cold / NODES && l.crosshatch == t.cross / NODES && l.energy == t.energy / NODES
  {
    hide NodeTotals, Mips, Fib, FibWeight;
  }

  lemma ColdLevel(k: Knobs, l: Knobs, base: int, base': int, i: nat)
    requires InRange(k) && InRange(l) && k.energy >= l.energy && k.pressure <= l.pressure && i < LEVELS
    ensures 0 <= LevelOf(Unbounded, k, base, i).coldness <= LevelOf(Unbounded, l, base', i).coldness
  {
    hide InRange, NodeTotals, LevelOf;
    ColdTotals(k, l, base, base', i, NODES);
    LevelFigures(k, base, i);
    LevelFigures(l, base', i);
  }

  lemma {:induction false} ColdLevelTotals(k: Knobs, l: Knobs, base: int, base': int, n: nat)
    requires InRange(k) && InRange(l) && k.energy >= l.energy && k.pressure <= l.pressure && n <= LEVELS
    ensures 0 <= LevelTotals(Unbounded, k, base, n).cold <= LevelTotals(Unbounded, l, base', n).cold
    decreases n
  {
    hide InRange, LevelTotals, LevelOf;
    LevelTotalsStep(Unbounded, k, base, n);
    LevelTotalsStep(Unbounded, l, base', n);
    if n > 0 {
      ColdLevelTotals(k, l, base, base', n - 1);
      ColdLevel(k, l, base, base', n - 1);
    }
  }

  /** Coldness, on every level and recursively, never rises with pair energy and never falls with pair
      pressure. */
  lemma ColdnessMonotone(k: Knobs, l: Knobs)
    requires InRange(k) && InRange(l) && k.energy >= l.energy && k.pressure <= l.pressure
    ensures var s, t := Ladder(Word32, k), Ladder(Word32, l);
            && s.recColdness <= t.recColdness && |s.levels| == |t.levels| == LEVELS
            && forall i :: 0 <= i < LEVELS ==> s.levels[i].coldness <= t.levels[i].coldness
  {
    hide InRange, LevelTotals, LevelOf, Base;
    LadderExact(k);
    LadderExact(l);
    ColdLevelTotals(k, l, Base(Unbounded, k), Base(Unbounded, l), LEVELS);
    forall i | 0 <= i < LEVELS
      ensures LevelOf(Unbounded, k, Base(Unbounded, k), i).coldness <= LevelOf(Unbounded, l, Base(Unbounded, l), i).coldness
    {
      ColdLevel(k, l, Base(Unbounded, k), Base(Unbounded, l), i);
    }
  }

  // ----- crosshatch

  lemma CrossMono(k: Knobs, l: Knobs, n: int)
    requires InRange(k) && InRange(l) && k.mode == l.mode && k.energy <= l.energy && k.pressure <= l.pressure && 0 <= n
    ensures 0 <= Cross(Unbounded, k, n) <= Cross(Unbounded, l, n)
  {
    var a := k.quotient / 3 + Clamp(k.refraction, 0, 1500000) / 4 + k.energy / 5 + k.pressure / 5;
    var b := l.quotient / 3 + Clamp(l.refraction, 0, 1500000) / 4 + l.energy / 5 + l.pressure / 5;
    assert 0 <= a <= b;
    MulPpmMono(a, PPM - n % 4 * 15000, b, PPM - n % 4 * 15000);
    hide MulPpm;
  }

  lemma {:induction false} CrossTotals(k: Knobs, l: Knobs, base: int, base': int, i: nat, n: nat)
    requires InRange(k) && InRange(l) && k.mode == l.mode && k.energy <= l.energy && k.pressure <= l.pressure && i < LEVELS
    ensures 0 <= NodeTotals(Unbounded, k, base, i, n).cross <= NodeTotals(Unbounded, l, base', i, n).cross
    decreases n
  {
    hide InRange, NodeTotals, Cold, Cross, Retained, FibWeight;
    NodeTotalsStep(Unbounded, k, base, i, n);
    NodeTotalsStep(Unbounded, l, base', i, n);
    if n > 0 {
      CrossTotals(k, l, base, base', i, n - 1);
      CrossMono(k, l, n - 1);
    }
  }

  lemma CrossLevel(k: Knobs, l: Knobs, base: int, base': int, i: nat)
    requires InRange(k) && InRange(l) && k.mode == l.mode && k.energy <= l.energy && k.pressure <= l.pressure && i < LEVELS
    ensures 0 <= LevelOf(Unbounded, k, base, i).crosshatch <= LevelOf(Unbounded, l, base', i).crosshatch
  {
    hide InRange, NodeTotals, LevelOf;
    CrossTotals(k, l, base, base', i, NODES);
    LevelFigures(k, base, i);
    LevelFigures(l, base', i);
  }

  lemma {:induction false} CrossLevelTotals(k: Knobs, l: Knobs, base: int, base': int, n: nat)
    requires InRange(k) && InRange(l) && k.mode == l.mode && k.energy <= l.energy && k.pressure <= l.pressure && n <= LEVELS
    ensures 0 <= LevelTotals(Unbounded, k, base, n).cross <= LevelTotals(Unbounded, l, base', n).cross
    decreases n
  {
    hide InRange, LevelTotals, LevelOf;
    LevelTotalsStep(Unbounded, k, base, n);
    LevelTotalsStep(Unbounded, l, base', n);
    if n > 0 {
      CrossLevelTotals(k, l, base, base', n - 1);
      CrossLevel(k, l, base, base', n - 1);
    }
  }

  /** Crosshatch, on every level and recursively, never falls with pair energy or pair pressure. */
  lemma CrosshatchMonotone(k: Knobs, l: Knobs)
    requires InRange(k) && InRange(l) && k.mode == l.mode && k.energy <= l.energy && k.pressure <= l.pressure
    ensures var s, t := Ladder(Word32, k), Ladder(Word32, l);
            && s.recCrosshatch <= t.recCrosshatch && |s.levels| == |t.levels| == LEVELS
            && forall i :: 0 <= i < LEVELS ==> s.levels[i].crosshatch <= t.levels[i].crosshatch
  {
    hide InRange, LevelTotals, LevelOf, Base;
    LadderExact(k);
    LadderExact(l);
    CrossLevelTotals(k, l, Base(Unbounded, k), Base(Unbounded, l), LEVELS);
    forall i | 0 <= i < LEVELS
      ensures LevelOf(Unbounded, k, Base(Unbounded, k), i).crosshatch
              <= LevelOf(Unbounded, l, Base(Unbounded, l), i).crosshatch
    {
      CrossLevel(k, l, Base(Unbounded, k), Base(Unbounded, l), i);
    }
  }

  // ----- energy

  lemma {:induction false} EnergyTotals(k: Knobs, l: Knobs, base: int, base': int, i: nat, i': nat, n: nat)
    requires SameKind(k, l) && 0 <= base <= base' <= MAX_RETAINED && i' <= i < LEVELS && n <= NODES
    ensures 0 <= NodeTotals(Unbounded, k, base, i, n).energy <= NodeTotals(Unbounded, l, base', i', n).energy
    decreases n
  {
    hide SameKind, NodeTotals, Cold, Cross, Retained, FibWeight, MulQ16;
    NodeTotalsStep(Unbounded, k, base, i, n);
    NodeTotalsStep(Unbounded, l, base', i', n);
    if n > 0 {
      EnergyTotals(k, l, base, base', i, i', n - 1);
      NodeMono(k, l, base, base', i, i', n - 1);
      MulQ16Mono(NodeAt(Unbounded, k, base, i, n - 1).ret, NodeAt(Unbounded, l, base', i', n - 1).ret, KNOT);
    }
  }

  lemma EnergyLevel(k: Knobs, l: Knobs, base: int, base': int, i: nat, i': nat)
    requires SameKind(k, l) && 0 <= base <= base' <= MAX_RETAINED && i' <= i < LEVELS
    ensures 0 <= LevelOf(Unbounded, k, base, i).energy <= LevelOf(Unbounded, l, base', i').energy
  {
    hide SameKind, NodeTotals, LevelOf;
    EnergyTotals(k, l, base, base', i, i', NODES);
    LevelFigures(k, base, i);
    LevelFigures(l, base', i');
  }

  lemma {:induction false} EnergyLevelTotals(k: Knobs, l: Knobs, base: int, base': int, n: nat)
    requires SameKind(k, l) && 0 <= base <= base' <= MAX_RETAINED && n <= LEVELS
    ensures 0 <= LevelTotals(Unbounded, k, base, n).energy <= LevelTotals(Unbounded, l, base', n).energy
    decreases n
  {
    hide SameKind, LevelTotals, LevelOf;
    LevelTotalsStep(Unbounded, k, base, n);
    LevelTotalsStep(Unbounded, l, base', n);
    if n > 0 {
      EnergyLevelTotals(k, l, base, base', n - 1);
      EnergyLevel(k, l, base, base', n - 1, n - 1);
    }
  }

  /** Energy follows retained: on every level and recursively it never rises with pair energy, never falls
      with pair pressure, and never rises along the ladder. */
  lemma EnergyMonotone(k: Knobs, l: Knobs)
    requires InRange(k) && InRange(l) && k.mode == l.mode && k.energy >= l.energy && k.pressure <= l.pressure
    ensures var s, t := Ladder(Word32, k), Ladder(Word32, l);
            && s.recEnergy <= t.recEnergy && |s.levels| == |t.levels| == LEVELS
            && forall i, j :: 0 <= i <= j < LEVELS ==> s.levels[j].energy <= t.levels[i].energy
  {
    hide InRange, LevelTotals, LevelOf, Base, SameKind;
    LadderExact(k);
    LadderExact(l);
    BaseMono(k, l);
    var b, b' := Base(Unbounded, k), Base(Unbounded, l);
    EnergyLevelTotals(k, l, b, b', LEVELS);
    forall i, j {:trigger LevelOf(Unbounded, k, b, j), LevelOf(Unbounded, l, b', i)} | 0 <= i <= j < LEVELS
      ensures LevelOf(Unbounded, k, b, j).energy <= LevelOf(Unbounded, l, b', i).energy
    {
      EnergyLevel(k, l, b, b', j, i);
    }
  }
}
