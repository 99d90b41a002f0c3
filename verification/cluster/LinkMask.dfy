/** The 64-bit adjacency masks of dawnhex_kmod.c, bit by bit. */
module LinkMask {
  const WIDTH: nat := 64

  /** `1ULL << i` */
  function Mask(i: nat): bv64
    requires i < WIDTH
  {
    (1 as bv64) << (i as bv6)
  }

  predicate Meets(m: bv64, x: bv64) { m & x != 0 }
  function Or(m: bv64, x: bv64): bv64 { m | x }
  function AndNot(m: bv64, x: bv64): bv64 { m & !x }
  predicate Apart(x: bv64, y: bv64) { x != 0 && y != 0 && x & y == 0 }

  /** Whether bit `i` of the mask is set. */
  predicate Bit(m: bv64, i: nat) {
    i < WIDTH && Meets(m, Mask(i))
  }

  function SetBit(m: bv64, b: nat): bv64
    requires b < WIDTH
  {
    Or(m, Mask(b))
  }

  function ClearBit(m: bv64, b: nat): bv64
    requires b < WIDTH
  {
    AndNot(m, Mask(b))
  }

  /** How many of the first `n` bits are set. */
  function WeightBelow(m: bv64, n: nat): (r: nat)
    ensures r <= n
  {
    if n == 0 then 0 else WeightBelow(m, n - 1) + (if Bit(m, n - 1) then 1 else 0)
  }

  /** hweight64 */
  function Weight(m: bv64): (r: nat)
    ensures r <= 64
  {
    WeightBelow(m, WIDTH)
  }

  // ----- what the word operations do to single bits

  lemma ShiftApart(b: bv6, i: bv6)
    requires b != i
    ensures ((1 as bv64) << b) & ((1 as bv64) << i) == 0
  {
  }

  lemma ShiftNonzero(b: bv6)
    ensures (1 as bv64) << b != 0
  {
  }

  lemma IndexInjective(a: int, b: int)
    requires 0 <= a < 64 && 0 <= b < 64 && a as bv6 == b as bv6
    ensures a == b
  {
    IndexBack(a);
    IndexBack(b);
  }

  lemma IndexBack(a: int)
    requires 0 <= a < 64
    ensures (a as bv6) as int == a
  {
  }

  lemma OrApart(m: bv64, x: bv64, y: bv64)
    requires Apart(x, y)
    ensures Meets(Or(m, x), y) == Meets(m, y)
  {
  }

  lemma OrSelf(m: bv64, x: bv64)
    requires x != 0
    ensures Meets(Or(m, x), x)
  {
  }

  lemma AndNotSplits(m: bv64, x: bv64, y: bv64)
    ensures AndNot(m, x) & y == AndNot(m & y, x & y)
  {
  }

  lemma AndNotNothing(m: bv64)
    ensures AndNot(m, 0) == m
  {
  }

  lemma SameMeets(m: bv64, n: bv64, y: bv64)
    requires m & y == n & y
    ensures Meets(m, y) == Meets(n, y)
  {
  }

  lemma AndNotApart(m: bv64, x: bv64, y: bv64)
    requires Apart(x, y)
    ensures Meets(AndNot(m, x), y) == Meets(m, y)
  {
    hide AndNot, Meets;
    AndNotSplits(m, x, y);
    AndNotNothing(m & y);
    SameMeets(AndNot(m, x), m, y);
  }

  lemma AndNotSelf(m: bv64, x: bv64)
    ensures !Meets(AndNot(m, x), x)
  {
  }

  lemma ZeroMeets(x: bv64)
    ensures !Meets(0, x)
  {
  }

  lemma MaskNonzero(a: nat)
    requires a < WIDTH
    ensures Mask(a) != 0
  {
    ShiftNonzero(a as bv6);
  }

  lemma MasksApart(a: nat, b: nat)
    requires a < WIDTH && b < WIDTH && a != b
    ensures Apart(Mask(a), Mask(b))
  {
    ShiftNonzero(a as bv6);
    ShiftNonzero(b as bv6);
    if a as bv6 == b as bv6 {
      IndexInjective(a, b);
    }
    ShiftApart(a as bv6, b as bv6);
  }

  lemma SetBitMeets(m: bv64, b: nat, i: nat)
    requires b < WIDTH && i < WIDTH
    ensures Meets(Or(m, Mask(b)), Mask(i)) == (i == b || Meets(m, Mask(i)))
  {
    hide *;
    if b == i {
      MaskNonzero(b);
      OrSelf(m, Mask(b));
    } else {
      MasksApart(b, i);
      OrApart(m, Mask(b), Mask(i));
    }
  }

  lemma ClearBitMeets(m: bv64, b: nat, i: nat)
    requires b < WIDTH && i < WIDTH
    ensures Meets(AndNot(m, Mask(b)), Mask(i)) == (i != b && Meets(m, Mask(i)))
  {
    hide *;
    if b == i {
      AndNotSelf(m, Mask(b));
    } else {
      MasksApart(b, i);
      AndNotApart(m, Mask(b), Mask(i));
    }
  }

  /** Setting bit `b` sets that bit and no other. */
  lemma SetBitIs(m: bv64, b: nat, i: nat)
    requires b < WIDTH
    ensures Bit(SetBit(m, b), i) == (i == b || Bit(m, i))
  {
    hide Mask, Meets, Or;
    if i < WIDTH {
      SetBitMeets(m, b, i);
    }
  }

  lemma ClearBitIs(m: bv64, b: nat, i: nat)
    requires b < WIDTH
    ensures Bit(ClearBit(m, b), i) == (i != b && Bit(m, i))
  {
    hide Mask, Meets, AndNot;
    if i < WIDTH {
      ClearBitMeets(m, b, i);
    }
  }

  lemma AndNotUnset(m: bv64, x: bv64)
    requires !Meets(m, x)
    ensures AndNot(m, x) == m
  {
  }

  lemma OrAndNot(m: bv64, x: bv64)
    requires !Meets(m, x)
    ensures AndNot(Or(m, x), x) == m
  {
  }

  /** Clearing a bit that is not set changes nothing, and clearing undoes setting it. */
  lemma ClearUnset(m: bv64, b: nat)
    requires b < WIDTH && !Bit(m, b)
    ensures ClearBit(m, b) == m && ClearBit(SetBit(m, b), b) == m
  {
    hide Mask, Meets, Or, AndNot;
    AndNotUnset(m, Mask(b));
    OrAndNot(m, Mask(b));
  }

  lemma ZeroBit(i: nat)
    ensures !Bit(0, i)
  {
    hide Mask, Meets;
    if i < WIDTH {
      ZeroMeets(Mask(i));
    }
  }
}
