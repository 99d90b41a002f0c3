/** How far fixed-point results are from real ones. */
module RealError {
  import opened FixedPoint
  import opened LadderSums

  /** `x` is within `e` of `r`. */
  predicate Near(x: int, r: real, e: real) {
    r - e <= x as real <= r + e
  }

  /** What a Q16 number and a number of millionths stand for. */
  function Q16(q: int): real { q as real / 65536.0 }
  function Ppm(p: int): real { p as real / 1000000.0 }

  function RealClamp(v: real, lo: real, hi: real): real {
    if v < lo then lo else if v > hi then hi else v
  }

  lemma ClampNear(x: int, r: real, e: real, lo: int, hi: int)
    requires Near(x, r, e) && lo <= hi
    ensures Near(Clamp(x, lo, hi), RealClamp(r, lo as real, hi as real), e)
  {
  }

  lemma SumNear(x: int, r: real, e: real, y: int, s: real, d: real)
    requires Near(x, r, e) && Near(y, s, d)
    ensures Near(x + y, r + s, e + d)
  {
  }

  lemma Widen(x: int, r: real, e: real, e': real)
    requires Near(x, r, e) && e <= e'
    ensures Near(x, r, e')
  {
  }

  /** A product is monotone in a bound of its absolute value. */
  lemma BoundedProduct(a: real, e: real, b: real, m: real)
    requires -e <= a <= e && 0.0 <= b <= m
    ensures -e * m <= a * b <= e * m
  {
    SignedProduct(e - a, b);
    SignedProduct(e + a, b);
    SignedProduct(e, m - b);
    assert (e - a) * b == e * b - a * b;
    assert (e + a) * b == e * b + a * b;
    assert e * (m - b) == e * m - e * b;
    assert -e * m == -(e * m);
  }

  lemma SignedProduct(a: real, b: real)
    requires a >= 0.0 && b >= 0.0
    ensures a * b >= 0.0
  {
  }

  /** Dividing with rounding to the nearest. */
  lemma RoundedQuotient(p: int, d: int, h: int)
    requires d > 0 && 2 * h == d
    ensures ((p + h) / d) as real * d as real - h as real <= p as real <= ((p + h) / d) as real * d as real + h as real
  {
    var q := (p + h) / d;
    assert p + h == q * d + (p + h) % d;
    RealProduct(q, d);
  }

  lemma RealProduct(a: int, b: int)
    ensures (a * b) as real == a as real * b as real
  {
  }

  /** The exact product, by name. */
  function Product(a: real, b: real): real {
    a * b
  }

  /** A product of an approximate value with an approximate factor, before rounding: the error of the value
      times the factor, and of the factor times the value. */
  lemma ProductNear(x: real, r: real, e: real, f: real, g: real, d: real, top: real, most: real)
    requires r - e <= x <= r + e && g - d <= f <= g + d
    requires 0.0 <= x <= top && 0.0 <= g <= most
    ensures r * g - (e * most + d * top) <= x * f <= r * g + (e * most + d * top)
  {
    BoundedProduct(x - r, e, g, most);
    BoundedProduct(f - g, d, x, top);
    assert x * f - r * g == (x - r) * g + (f - g) * x;
  }

  /** One rounded product in ppm, of a value below `top` and a factor below `most`. */
  lemma MulPpmNear(x: int, r: real, e: real, f: int, g: real, d: real, top: real, most: real, err: real)
    requires Near(x, r, e) && 0.0 <= x as real <= top && 0.0 <= g <= most
    requires Near(f, g * 1000000.0, d) && e * most + d * top / 1000000.0 + 0.5 <= err
    ensures Near(MulPpm(Unbounded, x, f), Product(r, g), err)
  {
    var fr := f as real / 1000000.0;
    ProductNear(x as real, r, e, fr, g, d / 1000000.0, top, most);
    RoundedQuotient(x * f, 1000000, 500000);
    RealProduct(x, f);
    assert x as real * f as real == (x as real * fr) * 1000000.0;
    assert d / 1000000.0 * top == d * top / 1000000.0;
  }

  /** One rounded product in Q16, with an exact factor. */
  lemma MulQ16Near(x: int, r: real, e: real, q: int)
    requires Near(x, r, e) && x >= 0 && q >= 0
    ensures Near(MulQ16(Unbounded, x, q), Product(r, Q16(q)), Product(e, Q16(q)) + 0.5)
    ensures MulQ16(Unbounded, x, q) >= 0
  {
    MulMono(0, 0, x, q);
    var f := q as real / 65536.0;
    ProductNear(x as real, r, e, f, f, 0.0, x as real, f);
    RoundedQuotient(x * q, 65536, 32768);
    RealProduct(x, q);
    assert x as real * q as real == (x as real * f) * 65536.0;
  }

  /** An average rounded down. */
  lemma AverageNear(t: int, s: real, n: nat, e: real)
    requires n > 0 && Near(t, s, n as real * e)
    ensures Near(t / n, s / n as real, e + 1.0)
  {
    FloorNear(t, n);
    QuotientNear(t as real, s, n as real, e);
  }

  lemma QuotientNear(t: real, s: real, d: real, e: real)
    requires d > 0.0 && s - d * e <= t <= s + d * e
    ensures s / d - e <= t / d <= s / d + e
  {
    var p, m := t / d, s / d;
    assert t == p * d && s == m * d;
    Shifted(m, e, d);
    Cancel(p, m + e, d);
    Cancel(m - e, p, d);
  }

  lemma Shifted(m: real, e: real, d: real)
    ensures (m + e) * d == m * d + d * e && (m - e) * d == m * d - d * e
  {
  }

  lemma Positive(a: real, d: real)
    requires a > 0.0 && d > 0.0
    ensures a * d > 0.0
  {
  }

  lemma Cancel(a: real, b: real, d: real)
    requires d > 0.0 && a * d <= b * d
    ensures a <= b
  {
    Shifted(a, b, d);
    if a > b {
      Positive(a - b, d);
      assert false;
    }
  }

  /** A quotient rounded down. */
  lemma FloorNear(t: int, n: int)
    requires n > 0
    ensures t as real / n as real - 1.0 <= (t / n) as real <= t as real / n as real
  {
    var q, d := t / n, n as real;
    var m := t as real / d;
    assert t == q * n + t % n;
    RealProduct(q, n);
    assert t as real == m * d;
    Shifted(m, 1.0, d);
    Cancel(q as real, m, d);
    Cancel(m - 1.0, q as real, d);
  }

  // ----- four figures at once

  /** The figures of one node, of a sum or of an average, over the reals. */
  datatype Figures = Figures(ret: real, cross: real, cold: real, energy: real)

  const NO_FIGURES := Figures(0.0, 0.0, 0.0, 0.0)

  function Plus(a: Figures, b: Figures): Figures {
    Figures(a.ret + b.ret, a.cross + b.cross, a.cold + b.cold, a.energy + b.energy)
  }

  function Over(a: Figures, n: nat): Figures
    requires n > 0
  {
    Figures(a.ret / n as real, a.cross / n as real, a.cold / n as real, a.energy / n as real)
  }

  function Times(n: nat, a: Figures): Figures {
    Figures(n as real * a.ret, n as real * a.cross, n as real * a.cold, n as real * a.energy)
  }

  /** What one more rounding down may cost. */
  function Coarser(a: Figures): Figures {
    Figures(a.ret + 1.0, a.cross + 1.0, a.cold + 1.0, a.energy + 1.0)
  }

  predicate NodeNear(x: NodeShare, r: Figures, e: Figures) {
    && Near(x.ret, r.ret, e.ret) && Near(x.cross, r.cross, e.cross)
    && Near(x.cold, r.cold, e.cold) && Near(x.energy, r.energy, e.energy)
  }

  predicate TotalsNear(t: Totals, r: Figures, e: Figures) {
    && Near(t.ret, r.ret, e.ret) && Near(t.cross, r.cross, e.cross)
    && Near(t.cold, r.cold, e.cold) && Near(t.energy, r.energy, e.energy)
  }

  lemma NoTotalsNear(e: Figures)
    ensures TotalsNear(NO_TOTALS, NO_FIGURES, Times(0, e))
  {
  }

  lemma AddNear(t: Totals, r: Figures, x: NodeShare, q: Figures, n: nat, e: Figures)
    requires n > 0 && TotalsNear(t, r, Times(n - 1, e)) && NodeNear(x, q, e)
    ensures TotalsNear(AddShare(t, x), Plus(r, q), Times(n, e))
  {
    OneMore(n, e.ret);
    OneMore(n, e.cross);
    OneMore(n, e.cold);
    OneMore(n, e.energy);
  }

  lemma OneMore(n: nat, e: real)
    requires n > 0
    ensures n as real * e == (n - 1) as real * e + e
  {
    assert n as real == (n - 1) as real + 1.0;
  }

  lemma AveragesNear(t: Totals, r: Figures, n: nat, e: Figures)
    requires n > 0 && TotalsNear(t, r, Times(n, e))
    ensures TotalsNear(Averages(Unbounded, t, n), Over(r, n), Coarser(e))
  {
    AverageNear(t.ret, r.ret, n, e.ret);
    AverageNear(t.cross, r.cross, n, e.cross);
    AverageNear(t.cold, r.cold, n, e.cold);
    AverageNear(t.energy, r.energy, n, e.energy);
  }
}
