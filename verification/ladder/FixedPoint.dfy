/** Parts-per-million and Q16 arithmetic as both kernel modules do it. */
module FixedPoint {
  type u32 = x: int | 0 <= x < 0x1_0000_0000

  const U32: int := 0x1_0000_0000
  const PPM: int := 1000000

  /** The same formula is read in two ways: in C's 32-bit words, and over the integers. */
  datatype Width = Word32 | Unbounded

  /** What an intermediate result is in the given reading. */
  function Fit(w: Width, x: int): (r: int)
    ensures w == Word32 ==> 0 <= r < U32
    ensures 0 <= x < U32 ==> r == x
  {
    if w == Word32 then x % U32 else x
  }

  /** dh_mul_ppm, sa_mul_ppm: the product is formed in 64 bits, rounded, then cut to 32. */
  function MulPpm(w: Width, a: int, b: int): (r: int)
    ensures w == Word32 ==> 0 <= r < U32
  {
    Fit(w, (a * b + 500000) / 1000000)
  }

  /** dh_mul_q16, sa_mul_q16 */
  function MulQ16(w: Width, a: int, q: int): (r: int)
    ensures w == Word32 ==> 0 <= r < U32
  {
    Fit(w, (a * q + 32768) / 65536)
  }

  function Clamp(v: int, lo: int, hi: int): int {
    if v < lo then lo else if v > hi then hi else v
  }

  lemma MulMono(a: int, b: int, c: int, d: int)
    requires 0 <= a <= c && 0 <= b <= d
    ensures 0 <= a * b <= c * d
  {
    assert c * d - a * b == (c - a) * d + a * (d - b);
    assert (c - a) * d >= 0 && a * (d - b) >= 0 && a * b >= 0;
  }

  /** A rounded product grows with both factors, and fits a word when its upper estimate does. */
  lemma MulPpmMono(a: int, b: int, c: int, d: int)
    requires 0 <= a <= c && 0 <= b <= d
    ensures 0 <= MulPpm(Unbounded, a, b) <= MulPpm(Unbounded, c, d)
    ensures MulPpm(Unbounded, c, d) < U32 ==> MulPpm(Word32, a, b) == MulPpm(Unbounded, a, b)
  {
    MulMono(a, b, c, d);
  }

  lemma MulQ16Mono(a: int, c: int, q: int)
    requires 0 <= a <= c && 0 <= q
    ensures 0 <= MulQ16(Unbounded, a, q) <= MulQ16(Unbounded, c, q)
    ensures MulQ16(Unbounded, c, q) < U32 ==> MulQ16(Word32, a, q) == MulQ16(Unbounded, a, q)
  {
    MulMono(a, q, c, q);
  }

  // ----- mip profiles

  const MIP_WEIGHTS: seq<int> := [2400000, 1850000, 1400000, 1050000, 800000, 600000, 450000, 300000, 200000]

  function MipAt(w: Width, base: int, m: nat): (r: int)
    requires m < 9
    ensures 1000 <= r <= PPM
  {
    Clamp(Fit(w, (base * MIP_WEIGHTS[m] + 500000) / 1000000), 1000, 1000000)
  }

  function Mips(w: Width, base: int): (r: seq<u32>)
    ensures |r| == 9
  {
    seq(9, m requires 0 <= m < 9 => MipAt(w, base, m))
  }

  /** A mip profile never rises, and is non-decreasing in the value it is built from. */
  lemma MipsFall(a: int, b: int)
    requires 0 <= a <= b
    ensures forall m :: 0 < m < 9 ==> MipAt(Unbounded, a, m) <= MipAt(Unbounded, a, m - 1)
    ensures forall m :: 0 <= m < 9 ==> MipAt(Unbounded, a, m) <= MipAt(Unbounded, b, m)
  {
    forall m | 0 < m < 9
      ensures MipAt(Unbounded, a, m) <= MipAt(Unbounded, a, m - 1)
    {
      MulMono(a, MIP_WEIGHTS[m], a, MIP_WEIGHTS[m - 1]);
    }
    forall m | 0 <= m < 9
      ensures MipAt(Unbounded, a, m) <= MipAt(Unbounded, b, m)
    {
      MulMono(a, MIP_WEIGHTS[m], b, MIP_WEIGHTS[m]);
    }
  }

  lemma MipsExact(base: int)
    requires 0 <= base <= PPM
    ensures Mips(Word32, base) == Mips(Unbounded, base)
  {
    forall m | 0 <= m < 9
      ensures MipAt(Word32, base, m) == MipAt(Unbounded, base, m)
    {
      MulMono(base, MIP_WEIGHTS[m], 1000000, 2400000);
    }
  }

  // ----- Fibonacci weights

  function Fib(n: nat): nat {
    if n < 2 then n else Fib(n - 1) + Fib(n - 2)
  }

  /** The sum of the first `n` entries 1, 1, 2, 3, ... */
  function FibTotal(n: nat): nat {
    if n == 0 then 0 else FibTotal(n - 1) + Fib(n)
  }

  lemma {:induction false} FibTotalClosed(n: nat)
    ensures FibTotal(n) == Fib(n + 2) - 1
  {
    if n > 0 {
      FibTotalClosed(n - 1);
    }
  }

  lemma {:induction false} FibGrows(n: nat, m: nat)
    requires n <= m
    ensures Fib(n) <= Fib(m)
    ensures n > 0 ==> Fib(m) > 0
    decreases m
  {
    if n < m {
      FibGrows(n, m - 1);
      assert m >= 2 || Fib(m) == m;
    } else if n > 1 {
      FibGrows(1, n - 1);
    }
  }

  function Two(n: nat): nat {
    if n == 0 then 1 else 2 * Two(n - 1)
  }

  lemma {:induction false} FibBelowTwo(n: nat)
    ensures Fib(n) <= Two(n) && Fib(n + 1) <= Two(n + 1)
  {
    if n > 0 {
      FibBelowTwo(n - 1);
    }
  }

  lemma TwoTo24()
    ensures Two(24) == 0x100_0000
  {
    assert Two(8) == 0x100;
    assert Two(16) == 0x1_0000;
  }

  /** All entries of a ladder of at most 22 levels fit a word with room to spare. */
  lemma FibSmall(n: nat)
    requires n <= 24
    ensures Fib(n) <= 0x100_0000
  {
    hide Fib, Two;
    FibGrows(n, 24);
    FibBelowTwo(24);
    TwoTo24();
  }

  /** The share of entry `i` (counted from 0) among `n`, in ppm, rounded down. */
  function FibWeight(i: nat, n: nat): (r: nat)
    requires i < n
  {
    FibTotalPositive(n);
    Share(Fib(i + 1), FibTotal(n))
  }

  /** `part * 10^6 / whole`, rounded down. */
  function Share(part: nat, whole: nat): (r: nat)
    requires whole > 0
  {
    ShareNatural(part, whole);
    part * PPM / whole
  }

  lemma ShareNatural(part: nat, whole: nat)
    requires whole > 0
    ensures part * PPM / whole >= 0
  {
    OrderedQuotients(0, 0, part * PPM / whole, part * PPM % whole, whole);
  }

  lemma {:induction false} FibTotalPositive(n: nat)
    requires n > 0
    ensures FibTotal(n) > 0
  {
    FibGrows(1, n);
  }

  lemma DivMono(a: int, b: int, d: int)
    requires 0 <= a <= b && d > 0
    ensures 0 <= a / d <= b / d
  {
    OrderedQuotients(a / d, a % d, b / d, b % d, d);
    OrderedQuotients(0, 0, a / d, a % d, d);
  }

  lemma OrderedQuotients(p: int, r: int, q: int, s: int, d: int)
    requires d > 0 && 0 <= r < d && 0 <= s < d && p * d + r <= q * d + s
    ensures p <= q
  {
    var k := p - q;
    assert p * d == q * d + k * d by { assert p == q + k; }
    assert k >= 1 ==> k * d >= d;
  }

  lemma FibTotalBounds(i: nat, n: nat)
    requires i < n
    ensures Fib(i + 1) <= FibTotal(n)
  {
    if i + 1 < n {
      FibTotalBounds(i, n - 1);
    }
  }

  /** Weights rise along the ladder and never exceed one. */
  lemma FibWeightRises(i: nat, j: nat, n: nat)
    requires i <= j < n
    ensures 0 <= FibWeight(i, n) <= FibWeight(j, n) <= PPM
  {
    FibGrows(i + 1, j + 1);
    FibTotalPositive(n);
    DivMono(Fib(i + 1) * PPM, Fib(j + 1) * PPM, FibTotal(n));
    FibTotalBounds(j, n);
    DivMono(Fib(j + 1) * PPM, FibTotal(n) * PPM, FibTotal(n));
    assert FibTotal(n) * PPM / FibTotal(n) == PPM by { ExactQuotient(PPM, FibTotal(n)); }
  }

  lemma ExactQuotient(q: int, d: int)
    requires d > 0
    ensures d * q / d == q
  {
    var r := d * q / d;
    assert d * q == r * d + (d * q) % d;
    assert (q - r) * d == (d * q) % d;
    assert q - r >= 1 ==> (q - r) * d >= d;
    assert q - r <= -1 ==> (q - r) * d <= -d;
  }

  /** dh_fill_fib22 and sa_fill_fib: the table and its total, for any count up to 22. */
  method FillFib(count: nat) returns (out: seq<u32>, total: nat)
    requires count <= 22
    ensures |out| == 22 && total == FibTotal(count)
    ensures forall i :: 0 <= i < count ==> out[i] == Fib(i + 1)
    ensures forall i :: count <= i < 22 ==> out[i] == 0
  {
    out := seq(22, _ => 0);
    total := 0;
    if count == 0 {
      return;
    }
    out := out[0 := 1];
    total := 1;
    assert FibTotal(1) == 1;
    if count == 1 {
      return;
    }
    out := out[1 := 1];
    total := 2;
    assert FibTotal(2) == 2;
    var i := 2;
    while i < count
      invariant 2 <= i <= count && |out| == 22
      invariant forall k :: 0 <= k < i ==> out[k] == Fib(k + 1)
      invariant forall k :: i <= k < 22 ==> out[k] == 0
      invariant total == FibTotal(i)
    {
      FibSmall(i + 1);
      out := out[i := Fit(Word32, out[i - 1] + out[i - 2])];
      total := total + out[i];
      i := i + 1;
    }
  }
}

/** The running sums and averages both ladders are made of. */
module LadderSums {
  import opened FixedPoint

  /** What one node contributes. */
  datatype NodeShare = NodeShare(ret: int, red: int, cross: int, cold: int, energy: int)

  /** Sums of retained, reduction, crosshatch, coldness and energy. */
  datatype Totals = Totals(ret: int, red: int, cross: int, cold: int, energy: int)

  const NO_TOTALS := Totals(0, 0, 0, 0, 0)

  function AddShare(t: Totals, n: NodeShare): Totals {
    Totals(t.ret + n.ret, t.red + n.red, t.cross + n.cross, t.cold + n.cold, t.energy + n.energy)
  }

  /** The averages over `d` contributions, cut to words. */
  function Averages(w: Width, t: Totals, d: nat): Totals
    requires d > 0
  {
    Totals(Fit(w, t.ret / d), Fit(w, t.red / d), Fit(w, t.cross / d), Fit(w, t.cold / d), Fit(w, t.energy / d))
  }

  /** Two parts of a whole of `d` ones, averaged apart with rounding down, miss one by at most one. */
  lemma SplitAverages(a: int, b: int, d: int)
    requires d > 0 && a >= 0 && b >= 0 && a + b == d * PPM
    ensures PPM - 1 <= a / d + b / d <= PPM
  {
    var q, r := a / d, a % d;
    var p, s := b / d, b % d;
    assert a == q * d + r && b == p * d + s;
    assert d * PPM == (q + p) * d + r + s by { assert (q + p) * d == q * d + p * d; }
    OrderedQuotients(q + p, 0, PPM, 0, d);
    OrderedQuotients(PPM, 0, q + p + 1, d - 1, d);
  }

  /** The same when each of the `d` ones was already missed by at most one. */
  lemma SplitAveragesLoose(a: int, b: int, d: int)
    requires d > 0 && a >= 0 && b >= 0 && d * (PPM - 1) <= a + b <= d * PPM
    ensures PPM - 2 <= a / d + b / d <= PPM
  {
    var q, r := a / d, a % d;
    var p, s := b / d, b % d;
    assert a == q * d + r && b == p * d + s;
    assert (q + p) * d == q * d + p * d;
    OrderedQuotients(q + p, 0, PPM, 0, d);
    assert (q + p + 1) * d == q * d + p * d + d;
    OrderedQuotients(PPM - 1, 0, q + p + 1, d - 1, d);
  }

  /** An average of values in [lo, hi] is in [lo, hi]. */
  lemma AverageBetween(t: int, d: int, lo: int, hi: int)
    requires d > 0 && d * lo <= t <= d * hi
    ensures lo <= t / d <= hi
  {
    assert t == (t / d) * d + t % d;
    OrderedQuotients(lo, 0, t / d, t % d, d);
    OrderedQuotients(t / d, 0, hi, 0, d);
  }
}
