/** The stages both ladders share, over the reals, and how closely the integer stages follow them. */
module RealLadder {
  import opened FixedPoint
  import opened RealError

  /** A base raised by two factors, clamped, moved up, clamped again and modified. */
  function RealLift(base: real, arm: real, u: real, lo: real, hi: real, extra: real, adder: real, modifier: real): real {
    var v := RealClamp(Product(Product(base, arm), u), lo, hi);
    Product(RealClamp(v + Product(extra, adder), lo, hi), modifier)
  }

  /** The same in integers, as both modules compute it. */
  function IntLift(base: int, arm: int, u: int, lo: int, hi: int, extra: int, adder: int, modifier: int): int {
    var v := Clamp(MulQ16(Unbounded, MulQ16(Unbounded, base, arm), u), lo, hi);
    MulQ16(Unbounded, Clamp(v + MulQ16(Unbounded, extra, adder), lo, hi), modifier)
  }

  /** The error of a lift whose base has error `e`. */
  function LiftError(e: real, arm: real, u: real, modifier: real): real {
    Product(Product(Product(e, arm) + 0.5, u) + 1.0, modifier) + 0.5
  }

  lemma LiftNear(base: int, r: real, e: real, arm: int, u: int, lo: int, hi: int, extra: int, adder: int, modifier: int)
    requires Near(base, r, e) && base >= 0 && arm >= 0 && u >= 0 && 0 <= lo <= hi && extra >= 0 && adder >= 0
    requires modifier >= 0
    ensures Near(IntLift(base, arm, u, lo, hi, extra, adder, modifier),
                 RealLift(r, Q16(arm), Q16(u), lo as real, hi as real, extra as real, Q16(adder), Q16(modifier)),
                 LiftError(e, Q16(arm), Q16(u), Q16(modifier)))
  {
    hide Q16, MulQ16, Clamp, RealClamp, Product;
    MulQ16Near(base, r, e, arm);
    var a := MulQ16(Unbounded, base, arm);
    MulQ16Near(a, Product(r, Q16(arm)), Product(e, Q16(arm)) + 0.5, u);
    AddendNear(extra, adder);
    ModifyNear(MulQ16(Unbounded, a, u), Product(Product(r, Q16(arm)), Q16(u)),
               Product(Product(e, Q16(arm)) + 0.5, Q16(u)) + 0.5,
               MulQ16(Unbounded, extra, adder), Product(extra as real, Q16(adder)), lo, hi, modifier);
  }

  lemma ModifyNear(b: int, r: real, e: real, c: int, x: real, lo: int, hi: int, modifier: int)
    requires Near(b, r, e) && Near(c, x, 0.5) && 0 <= lo <= hi && modifier >= 0
    ensures Near(MulQ16(Unbounded, Clamp(Clamp(b, lo, hi) + c, lo, hi), modifier),
                 Product(RealClamp(RealClamp(r, lo as real, hi as real) + x, lo as real, hi as real), Q16(modifier)),
                 Product(e + 0.5, Q16(modifier)) + 0.5)
  {
    hide Q16, MulQ16, Clamp, RealClamp, Product;
    var v, rv := Clamp(b, lo, hi), RealClamp(r, lo as real, hi as real);
    ClampNear(b, r, e, lo, hi);
    ClampNear(v + c, rv + x, e + 0.5, lo, hi);
    ClampBetween(v + c, lo, hi);
    MulQ16Near(Clamp(v + c, lo, hi), RealClamp(rv + x, lo as real, hi as real), e + 0.5, modifier);
  }

  lemma AddendNear(extra: int, adder: int)
    requires extra >= 0 && adder >= 0
    ensures Near(MulQ16(Unbounded, extra, adder), Product(extra as real, Q16(adder)), 0.5)
  {
    hide MulQ16, Q16;
    MulQ16Near(extra, extra as real, 0.0, adder);
    assert Product(0.0, Q16(adder)) == 0.0;
  }

  lemma ClampBetween(x: int, lo: int, hi: int)
    requires lo <= hi
    ensures lo <= Clamp(x, lo, hi) <= hi
  {
  }

  // ----- the three factors that fall along the ladder

  /** The share of entry `i` among `n` Fibonacci numbers. */
  function RealShare(i: nat, n: nat): (r: real)
    requires i < n
    ensures 0.0 <= r <= 1.0
  {
    FibTotalPositive(n);
    FibTotalBounds(i, n);
    ShareBetween(Fib(i + 1) as real, FibTotal(n) as real);
    Fib(i + 1) as real / FibTotal(n) as real
  }

  lemma ShareBetween(a: real, b: real)
    requires 0.0 <= a <= b && b > 0.0
    ensures 0.0 <= a / b <= 1.0
  {
  }

  lemma WeightNear(i: nat, n: nat)
    requires i < n
    ensures Near(FibWeight(i, n), RealShare(i, n) * 1000000.0, 1.0)
  {
    FibTotalPositive(n);
    FloorNear(Fib(i + 1) * PPM, FibTotal(n));
    RealProduct(Fib(i + 1), PPM);
    ScaledQuotient(Fib(i + 1) as real, FibTotal(n) as real);
    hide Fib, FibTotal;
  }

  lemma ScaledQuotient(a: real, b: real)
    requires b > 0.0
    ensures a * 1000000.0 / b == a / b * 1000000.0
  {
  }

  /** `1 - share * gain` */
  lemma LevelScalarNear(i: nat, n: nat, gain: int)
    requires i < n && 0 <= gain <= PPM
    ensures Near(PPM - MulPpm(Unbounded, FibWeight(i, n), gain), (1.0 - Product(RealShare(i, n), Ppm(gain))) * 1000000.0, 1.5)
    ensures 0 <= PPM - MulPpm(Unbounded, FibWeight(i, n), gain) <= PPM
    ensures 0.0 <= 1.0 - Product(RealShare(i, n), Ppm(gain)) <= 1.0
  {
    hide FibWeight, RealShare;
    WeightNear(i, n);
    FibWeightRises(i, i, n);
    GainNear(FibWeight(i, n), RealShare(i, n), gain);
  }

  lemma GainNear(w: int, s: real, gain: int)
    requires 0 <= gain <= PPM && 0 <= w <= PPM && 0.0 <= s <= 1.0 && Near(w, s * 1000000.0, 1.0)
    ensures Near(PPM - MulPpm(Unbounded, w, gain), (1.0 - Product(s, Ppm(gain))) * 1000000.0, 1.5)
    ensures 0 <= PPM - MulPpm(Unbounded, w, gain) <= PPM
    ensures 0.0 <= 1.0 - Product(s, Ppm(gain)) <= 1.0
  {
    hide MulPpm;
    var g := Ppm(gain);
    MulPpmMono(w, gain, 1000000, 1000000);
    MulPpmTop();
    ShareOfOne(s, g);
    MulPpmNear(w, s * 1000000.0, 1.0, gain, g, 0.0, 1000000.0, 1.0, 1.5);
  }

  lemma MulPpmTop()
    ensures MulPpm(Unbounded, 1000000, 1000000) == 1000000
  {
  }

  lemma ShareOfOne(s: real, g: real)
    requires 0.0 <= s <= 1.0 && 0.0 <= g <= 1.0
    ensures 0.0 <= Product(s, g) <= 1.0
    ensures Product(s * 1000000.0, g) == Product(s, g) * 1000000.0
  {
    BoundedProduct(s, 1.0, g, 1.0);
    SignedProduct(s, g);
  }

  function RealNodeScalar(n: nat, d: nat, gain: real): real
    requires d > 0
  {
    1.0 - Product(n as real, gain) / d as real
  }

  /** `1 - n * gain / d` */
  lemma NodeScalarNear(n: nat, d: nat, gain: int)
    requires n <= d && d > 0 && 0 <= gain <= PPM
    ensures Near(PPM - n * gain / d, RealNodeScalar(n, d, Ppm(gain)) * 1000000.0, 1.0)
    ensures 0 <= PPM - n * gain / d <= PPM
    ensures 0.0 <= RealNodeScalar(n, d, Ppm(gain)) <= 1.0
  {
    var p := n * gain;
    FloorNear(p, d);
    PartOfWhole(n, d, gain);
    NodeShareIs(n, d, gain);
    hide Ppm, Product;
  }

  lemma PartOfWhole(n: nat, d: nat, gain: int)
    requires n <= d && d > 0 && 0 <= gain <= PPM
    ensures 0 <= n * gain / d <= PPM
  {
    var p := n * gain;
    MulMono(n, gain, d, PPM);
    OrderedQuotients(0, 0, p / d, p % d, d);
    OrderedQuotients(p / d, p % d, PPM, 0, d);
  }

  lemma NodeShareIs(n: nat, d: nat, gain: int)
    requires n <= d && d > 0 && 0 <= gain <= PPM
    ensures (n * gain) as real / d as real == Product(n as real, Ppm(gain)) / d as real * 1000000.0
    ensures 0.0 <= Product(n as real, Ppm(gain)) / d as real <= 1.0
  {
    var x, y := n as real, Ppm(gain);
    RealProduct(n, gain);
    Millionths(x, gain);
    BoundedProduct(y, 1.0, x, d as real);
    SignedProduct(x, y);
    assert Product(x, y) == y * x;
    hide Product, Ppm;
    ScaledQuotient(Product(x, y), d as real);
    ShareBetween(Product(x, y), d as real);
  }

  lemma Millionths(x: real, gain: int)
    ensures x * gain as real == Product(x, Ppm(gain)) * 1000000.0
  {
  }

  /** `1 - (i + 1) * gain / 100 - n * gain / 200` */
  lemma PhaseScalarNear(i: nat, n: nat, gain: int)
    requires 0 <= gain && (2 * (i + 1) + n) * gain <= 200 * PPM
    ensures 0.0 <= RealPhase(i, n, Ppm(gain)) <= 1.0
    ensures Near(PPM - (i + 1) * gain / 100 - n * gain / 200, RealPhase(i, n, Ppm(gain)) * 1000000.0, 2.0)
    ensures 0 <= PPM - (i + 1) * gain / 100 - n * gain / 200 <= PPM
  {
    MulMono(0, 0, i + 1, gain);
    MulMono(0, 0, n, gain);
    PhasePart(i + 1, 100, gain);
    PhasePart(n, 200, gain);
    PhaseSum(i, n, gain);
  }

  lemma PhaseSum(i: nat, n: nat, gain: int)
    requires 0 <= gain && (2 * (i + 1) + n) * gain <= 200 * PPM
    ensures (i + 1) * gain / 100 + n * gain / 200 <= PPM
    ensures 0.0 <= RealPhase(i, n, Ppm(gain)) <= 1.0
  {
    var a, b := (i + 1) * gain, n * gain;
    assert 2 * a + b <= 200 * PPM by { assert (2 * (i + 1) + n) * gain == 2 * a + b; }
    MulMono(0, 0, i + 1, gain);
    MulMono(0, 0, n, gain);
    RealProduct(i + 1, gain);
    RealProduct(n, gain);
    var x, y := (i + 1) as real * Ppm(gain), n as real * Ppm(gain);
    assert a as real == x * 1000000.0 && b as real == y * 1000000.0;
  }

  function RealPhase(i: nat, n: nat, gain: real): real {
    1.0 - Product((i + 1) as real, gain) / 100.0 - Product(n as real, gain) / 200.0
  }

  lemma PhasePart(k: nat, d: nat, gain: int)
    requires d > 0 && gain >= 0
    ensures k as real * Ppm(gain) / d as real * 1000000.0 - 1.0 <= (k * gain / d) as real
    ensures (k * gain / d) as real <= k as real * Ppm(gain) / d as real * 1000000.0
    ensures k * gain / d >= 0
  {
    FloorNear(k * gain, d);
    RealProduct(k, gain);
    MulMono(0, 0, k, gain);
    OrderedQuotients(0, 0, k * gain / d, k * gain % d, d);
    var x := k as real * Ppm(gain);
    assert k as real * gain as real == x * 1000000.0;
    ScaledQuotient(x, d as real);
  }

  /** One rounded factor of at most one. */
  lemma ScaleNear(x: int, r: real, e: real, f: int, g: real, d: real, top: int, err: real)
    requires Near(x, r, e) && 0 <= x <= top && 0 <= f <= PPM && 0.0 <= g <= 1.0
    requires Near(f, g * 1000000.0, d) && e + d * top as real / 1000000.0 + 0.5 <= err
    ensures Near(MulPpm(Unbounded, x, f), Product(r, g), err)
    ensures 0 <= MulPpm(Unbounded, x, f) <= top
    ensures top < U32 ==> MulPpm(Word32, x, f) == MulPpm(Unbounded, x, f)
  {
    MulPpmByOne(top);
    hide Product, MulPpm;
    MulPpmNear(x, r, e, f, g, d, top as real, 1.0, err);
    MulPpmMono(x, f, top, 1000000);
  }

  lemma MulPpmByOne(x: int)
    ensures MulPpm(Unbounded, x, 1000000) == x
  {
  }

  function Scaled(r: real, g: real, g': real, g'': real): real {
    Product(Product(Product(r, g), g'), g'')
  }

  /** The three factors in a row, in words. */
  lemma ChainNear(x: int, r: real, e: real, f: int, g: real, f': int, g': real, f'': int, g'': real, top: int)
    requires Near(x, r, e) && 0 <= x <= top < U32
    requires 0 <= f <= PPM && 0.0 <= g <= 1.0 && Near(f, g * 1000000.0, 1.5)
    requires 0 <= f' <= PPM && 0.0 <= g' <= 1.0 && Near(f', g' * 1000000.0, 1.0)
    requires 0 <= f'' <= PPM && 0.0 <= g'' <= 1.0 && Near(f'', g'' * 1000000.0, 2.0)
    ensures var y := MulPpm(Word32, MulPpm(Word32, MulPpm(Word32, x, f), f'), f'');
            0 <= y <= top && Near(y, Scaled(r, g, g', g''), e + 4.5 * top as real / 1000000.0 + 1.5)
  {
    hide MulPpm, Product;
    var t := top as real / 1000000.0;
    ScaleNear(x, r, e, f, g, 1.5, top, e + 1.5 * t + 0.5);
    var y := MulPpm(Word32, x, f);
    ScaleNear(y, Product(r, g), e + 1.5 * t + 0.5, f', g', 1.0, top, e + 2.5 * t + 1.0);
    ScaleNear(MulPpm(Word32, y, f'), Product(Product(r, g), g'), e + 2.5 * t + 1.0, f'', g'', 2.0, top, e + 4.5 * t + 1.5);
  }

  // ----- mip profiles

  /** How much larger or smaller than the level each of its nine mips is. */
  function RealMipWeight(m: nat): real {
    match m
    case 0 => 2.4
    case 1 => 1.85
    case 2 => 1.4
    case 3 => 1.05
    case 4 => 0.8
    case 5 => 0.6
    case 6 => 0.45
    case 7 => 0.3
    case _ => 0.2
  }

  lemma MipWeightIs(m: nat)
    requires m < 9
    ensures MIP_WEIGHTS[m] as real == RealMipWeight(m) * 1000000.0 && 200000 <= MIP_WEIGHTS[m] <= 2400000
  {
  }

  lemma MipNear(v: int, m: nat)
    requires 0 <= v && MulPpm(Unbounded, v, 2400000) < U32 && m < 9
    ensures Near(MipAt(Word32, v, m), RealClamp(Product(v as real, RealMipWeight(m)), 1000.0, 1000000.0), 0.5)
  {
    MipIs(v, m);
    MipWeightIs(m);
    hide MulPpm, Product, RealMipWeight, Clamp, RealClamp, MipAt;
    var f, g := MIP_WEIGHTS[m], RealMipWeight(m);
    MulPpmMono(v, f, v, 2400000);
    MulPpmNear(v, v as real, 0.0, f, g, 0.0, v as real, 2.4, 0.5);
    ClampNear(MulPpm(Unbounded, v, f), Product(v as real, g), 0.5, 1000, 1000000);
  }

  lemma MipIs(v: int, m: nat)
    requires m < 9
    ensures MipAt(Word32, v, m) == Clamp(MulPpm(Word32, v, MIP_WEIGHTS[m]), 1000, 1000000)
  {
  }

  /** For any retained value whose largest mip is still a word. */
  lemma MipsNear(v: int)
    requires 0 <= v && MulPpm(Unbounded, v, 2400000) < U32
    ensures MipProfile(Mips(Word32, v), v)
  {
    hide MipAt, RealMipWeight, RealClamp, Product, MulPpm;
    forall m | 0 <= m < 9
      ensures Near(Mips(Word32, v)[m], RealClamp(Product(v as real, RealMipWeight(m)), 1000.0, 1000000.0), 0.5)
    {
      MipNear(v, m);
    }
  }

  /** Nine mips, each its multiple of the value, rounded to the nearest and clamped. */
  predicate MipProfile(mips: seq<u32>, v: int) {
    && |mips| == 9
    && forall m :: 0 <= m < 9 ==> Near(mips[m], RealClamp(Product(v as real, RealMipWeight(m)), 1000.0, 1000000.0), 0.5)
  }
}
