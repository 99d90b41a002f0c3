/** Exclusive or on octets, bit by bit. */
module XorOctets {
  import opened Octets

  function Pow2(n: nat): nat {
    if n == 0 then 1 else 2 * Pow2(n - 1)
  }

  /** Exclusive or of two `n`-bit numbers, from the lowest bit up. */
  function XorBits(a: nat, b: nat, n: nat): (r: nat)
    requires a < Pow2(n) && b < Pow2(n)
    ensures r < Pow2(n)
    decreases n
  {
    if n == 0 then 0 else (if a % 2 == b % 2 then 0 else 1) + 2 * XorBits(a / 2, b / 2, n - 1)
  }

  lemma {:induction false} XorBitsLaws(a: nat, b: nat, n: nat)
    requires a < Pow2(n) && b < Pow2(n)
    ensures XorBits(a, b, n) == XorBits(b, a, n)
    ensures XorBits(XorBits(a, b, n), b, n) == a
    ensures XorBits(a, a, n) == 0 && XorBits(a, 0, n) == a
    decreases n
  {
    if n > 0 {
      XorBitsLaws(a / 2, b / 2, n - 1);
      XorBitsHalf(a, b, n);
    }
  }

  lemma XorBitsHalf(a: nat, b: nat, n: nat)
    requires n > 0 && a < Pow2(n) && b < Pow2(n)
    ensures XorBits(a, b, n) / 2 == XorBits(a / 2, b / 2, n - 1)
    ensures XorBits(a, b, n) % 2 == if a % 2 == b % 2 then 0 else 1
  {
  }

  /** Bit `j` of a number. */
  function BitAt(a: nat, j: nat): nat {
    if j == 0 then a % 2 else BitAt(a / 2, j - 1)
  }

  lemma {:induction false} XorBitAt(a: nat, b: nat, n: nat, j: nat)
    requires a < Pow2(n) && b < Pow2(n) && j < n
    ensures BitAt(XorBits(a, b, n), j) == (BitAt(a, j) + BitAt(b, j)) % 2
    decreases n
  {
    XorBitsHalf(a, b, n);
    if j > 0 {
      XorBitAt(a / 2, b / 2, n - 1, j - 1);
    }
  }

  lemma OctetBits()
    ensures Pow2(8) == 256
  {
    assert Pow2(4) == 16;
  }

  function Xor(a: byte, b: byte): byte {
    OctetBits();
    XorBits(a as int, b as int, 8) as byte
  }

  /** Bit by bit the sum without carry. */
  lemma XorIsBitwise(a: byte, b: byte, j: nat)
    requires j < 8
    ensures BitAt(Xor(a, b) as nat, j) == (BitAt(a as nat, j) + BitAt(b as nat, j)) % 2
  {
    OctetBits();
    hide BitAt, XorBits;
    XorBitAt(a as int, b as int, 8, j);
  }

  lemma XorLaws(a: byte, b: byte)
    ensures Xor(a, b) == Xor(b, a) && Xor(Xor(a, b), b) == a
    ensures Xor(a, a) == 0 && Xor(a, 0) == a
  {
    hide XorBits;
    OctetBits();
    XorBitsLaws(a as int, b as int, 8);
  }
}

/** The byte permutations and the xor delta of deltaffi.c. */
module Links {
  import opened Octets
  import opened XorOctets

  function Reversed(s: seq<byte>): (r: seq<byte>)
    ensures |r| == |s|
  {
    seq(|s|, i requires 0 <= i < |s| => s[|s| - 1 - i])
  }

  /** Where place `i` of an inter-reversed string of length `n` is read from. */
  function InterSource(n: nat, i: nat): (j: nat)
    requires i < n
    ensures j < n
  {
    if i / 2 < n / 2 then (n / 2 - 1 - i / 2) * 2 + i % 2 else i
  }

  /** The two-byte groups in reverse order, each kept as it is; an odd last byte stays put. */
  function InterReversed(s: seq<byte>): (r: seq<byte>)
    ensures |r| == |s|
  {
    seq(|s|, i requires 0 <= i < |s| => s[InterSource(|s|, i)])
  }

  function At(s: seq<byte>, i: nat): byte {
    if i < |s| then s[i] else 0
  }

  function Longer(n: nat, m: nat): nat {
    if n > m then n else m
  }

  /** Bytewise exclusive or, the shorter side padded with zeros. */
  function XorDelta(a: seq<byte>, b: seq<byte>): (r: seq<byte>)
    ensures |r| == Longer(|a|, |b|)
  {
    seq(Longer(|a|, |b|), i requires 0 <= i => Xor(At(a, i), At(b, i)))
  }

  function Padded(s: seq<byte>, n: nat): seq<byte>
    requires |s| <= n
  {
    s + Repeat(0, n - |s|)
  }

  // ----- the loops

  /** dl_reverse_canonical */
  method ReverseCanonical(src: array?<byte>, len: nat, dst: array?<byte>)
    requires src != null ==> len <= src.Length
    requires dst != null ==> len <= dst.Length
    requires src != null ==> src != dst
    modifies dst
    ensures src != null && dst != null ==> dst[..] == Overwrite(old(dst[..]), Reversed(src[..len]))
    ensures src == null && dst != null ==> dst[..] == old(dst[..])
  {
    if src == null || dst == null {
      return;
    }
    var i := 0;
    while i < len
      invariant i <= len
      invariant forall k :: 0 <= k < i ==> dst[k] == src[len - 1 - k]
      invariant dst[len..] == old(dst[len..])
    {
      dst[i] := src[len - 1 - i];
      i := i + 1;
    }
  }

  /** dl_inter_reversed */
  method InterReverse(src: array?<byte>, len: nat, dst: array?<byte>)
    requires src != null ==> len <= src.Length
    requires dst != null ==> len <= dst.Length
    requires src != null ==> src != dst
    modifies dst
    ensures src != null && dst != null ==> dst[..] == Overwrite(old(dst[..]), InterReversed(src[..len]))
    ensures src == null && dst != null ==> dst[..] == old(dst[..])
  {
    if src == null || dst == null {
      return;
    }
    var pairCount := len / 2;
    var i := 0;
    while i < pairCount
      invariant i <= pairCount
      invariant forall k :: 0 <= k < 2 * i ==> dst[k] == src[InterSource(len, k)]
      invariant dst[len..] == old(dst[len..])
    {
      var srcPair := (pairCount - 1 - i) * 2;
      var dstPair := i * 2;
      dst[dstPair] := src[srcPair];
      dst[dstPair + 1] := src[srcPair + 1];
      i := i + 1;
    }
    if len % 2 == 1 {
      dst[len - 1] := src[len - 1];
    }
  }

  /** What a possibly absent input of the xor loop counts as. */
  function Input(a: array?<byte>, len: nat): (r: seq<byte>)
    requires a != null ==> len <= a.Length
    reads a
    ensures |r| == len
  {
    if a == null then Repeat(0, len) else a[..len]
  }

  /** dl_xor_delta */
  method XorInto(a: array?<byte>, aLen: nat, b: array?<byte>, bLen: nat, out: array?<byte>)
    requires a != null ==> aLen <= a.Length && a != out
    requires b != null ==> bLen <= b.Length && b != out
    requires out != null ==> Longer(aLen, bLen) <= out.Length
    modifies out
    ensures out != null ==> out[..] == Overwrite(old(out[..]), XorDelta(Input(a, aLen), Input(b, bLen)))
  {
    if out == null {
      return;
    }
    hide Xor, XorDelta, Overwrite, Input, At;
    ghost var d := XorDelta(Input(a, aLen), Input(b, bLen));
    ghost var sa, sb, orig := Input(a, aLen), Input(b, bLen), out[..];
    var n := if aLen > bLen then aLen else bLen;
    var i := 0;
    while i < n
      invariant i <= n
      invariant Input(a, aLen) == sa && Input(b, bLen) == sb
      invariant forall k :: 0 <= k < i ==> out[k] == d[k]
      invariant forall k :: i <= k < out.Length ==> out[k] == orig[k]
    {
      var av := ByteOrZero(a, aLen, i);
      var bv := ByteOrZero(b, bLen, i);
      DeltaAt(sa, sb, i);
      out[i] := Xor(av, bv);
      i := i + 1;
    }
    JoinedIs(out[..], d, orig);
    OverwriteIs(orig, d);
  }

  lemma JoinedIs(after: seq<byte>, d: seq<byte>, orig: seq<byte>)
    requires |d| <= |orig| == |after|
    requires forall k :: 0 <= k < |d| ==> after[k] == d[k]
    requires forall k :: |d| <= k < |orig| ==> after[k] == orig[k]
    ensures after == d + orig[|d|..]
  {
  }

  /** An input byte, zero past the end or for an absent input. */
  method ByteOrZero(a: array?<byte>, len: nat, i: nat) returns (v: byte)
    requires a != null ==> len <= a.Length
    ensures v == At(Input(a, len), i)
  {
    v := if i < len && a != null then a[i] else 0;
  }

  lemma DeltaAt(a: seq<byte>, b: seq<byte>, i: nat)
    requires i < Longer(|a|, |b|)
    ensures XorDelta(a, b)[i] == Xor(At(a, i), At(b, i))
  {
  }

  lemma OverwriteIs(orig: seq<byte>, d: seq<byte>)
    requires |d| <= |orig|
    ensures Overwrite(orig, d) == d + orig[|d|..]
  {
  }

  // ----- both permutations are involutions

  lemma ReversedTwice(s: seq<byte>)
    ensures Reversed(Reversed(s)) == s
  {
  }

  /** A one-byte string is its own reverse, and reversing swaps the parts of a string: this is all there
      is to reversal. */
  lemma ReversedJoins(x: byte, a: seq<byte>, b: seq<byte>)
    ensures Reversed([]) == [] && Reversed([x]) == [x]
    ensures Reversed(a + b) == Reversed(b) + Reversed(a)
  {
    forall i | 0 <= i < |a + b| ensures Reversed(a + b)[i] == (Reversed(b) + Reversed(a))[i] {
      assert (a + b)[|a| + |b| - 1 - i] == if i < |b| then b[|b| - 1 - i] else a[|a| - 1 - (i - |b|)];
    }
  }

  lemma InterSourceTwice(n: nat, i: nat)
    requires i < n
    ensures InterSource(n, InterSource(n, i)) == i
    ensures i / 2 < n / 2 ==> InterSource(n, i) / 2 == n / 2 - 1 - i / 2 && InterSource(n, i) % 2 == i % 2
  {
  }

  /** Inter-reversal undoes itself, and leaves an odd last byte where it was. */
  lemma InterReversedTwice(s: seq<byte>)
    ensures InterReversed(InterReversed(s)) == s
    ensures |s| % 2 == 1 ==> InterReversed(s)[|s| - 1] == s[|s| - 1]
  {
    forall i | 0 <= i < |s| ensures InterReversed(InterReversed(s))[i] == s[i] {
      InterSourceTwice(|s|, i);
    }
  }

  lemma {:induction false} ReversedPermutes(s: seq<byte>)
    ensures multiset(Reversed(s)) == multiset(s)
  {
    if s != [] {
      var n := |s| - 1;
      assert Reversed(s) == [s[n]] + Reversed(s[..n]);
      ReversedPermutes(s[..n]);
      assert s == s[..n] + [s[n]];
    }
  }

  lemma InterSourceShift(n: nat, i: nat)
    requires n % 2 == 0 && i < n
    ensures if i < n - 2 then InterSource(n, i) == InterSource(n - 2, i) + 2 else InterSource(n, i) == i - (n - 2)
  {
  }

  lemma InterReversedEven(s: seq<byte>)
    requires |s| % 2 == 0 && |s| >= 2
    ensures InterReversed(s) == InterReversed(s[2..]) + s[..2]
  {
    var n := |s|;
    forall i | 0 <= i < n
      ensures InterReversed(s)[i] == (InterReversed(s[2..]) + s[..2])[i]
    {
      InterSourceShift(n, i);
      hide InterSource;
    }
  }

  lemma InterReversedNone(s: seq<byte>)
    ensures s == [] ==> InterReversed(s) == []
  {
  }

  lemma InterReversedOdd(s: seq<byte>)
    requires |s| % 2 == 1
    ensures InterReversed(s) == InterReversed(s[..|s| - 1]) + [s[|s| - 1]]
  {
  }

  /** A group of two stays as it is, strings of whole groups swap places, and an odd last byte stays at
      the end: this is all there is to inter-reversal. */
  lemma InterReversedJoins(x: byte, y: byte, a: seq<byte>, b: seq<byte>)
    requires |a| % 2 == 0 && |b| % 2 == 0
    ensures InterReversed([]) == [] && InterReversed([x, y]) == [x, y]
    ensures InterReversed(a + b) == InterReversed(b) + InterReversed(a)
    ensures InterReversed(a + [x]) == InterReversed(a) + [x]
  {
    hide InterReversed;
    InterReversedNone([]);
    InterReversedPair(x, y);
    InterReversedOdd(a + [x]);
    assert (a + [x])[..|a|] == a;
    InterReversedSwaps(a, b);
  }

  lemma {:induction false} InterReversedSwaps(a: seq<byte>, b: seq<byte>)
    requires |a| % 2 == 0 && |b| % 2 == 0
    ensures InterReversed(a + b) == InterReversed(b) + InterReversed(a)
    decreases a
  {
    hide InterReversed;
    InterReversedNone(a);
    if a == [] {
      assert a + b == b;
    } else {
      InterReversedEven(a);
      InterReversedEven(a + b);
      FrontOfJoin(a, b);
      InterReversedSwaps(a[2..], b);
      Reassociated(InterReversed(b), InterReversed(a[2..]), a[..2]);
    }
  }

  lemma FrontOfJoin(a: seq<byte>, b: seq<byte>)
    requires |a| >= 2
    ensures (a + b)[2..] == a[2..] + b && (a + b)[..2] == a[..2]
  {
  }

  lemma Reassociated(a: seq<byte>, b: seq<byte>, c: seq<byte>)
    ensures (a + b) + c == a + (b + c)
  {
  }

  lemma InterReversedPair(x: byte, y: byte)
    ensures InterReversed([x, y]) == [x, y]
  {
  }

  lemma {:induction false} InterReversedPermutes(s: seq<byte>)
    ensures multiset(InterReversed(s)) == multiset(s)
  {
    InterReversedNone(s);
    if |s| % 2 == 1 {
      var n := |s| - 1;
      InterReversedOdd(s);
      hide InterReversed;
      InterReversedPermutes(s[..n]);
      assert s == s[..n] + [s[n]];
    } else if s != [] {
      InterReversedEven(s);
      hide InterReversed;
      InterReversedPermutes(s[2..]);
      assert s == s[..2] + s[2..];
    }
  }

  // ----- the deltas

  /** A delta taken against `b` gives `a` back, zero-padded, when `b` is applied again. */
  lemma DeltaRecovers(a: seq<byte>, b: seq<byte>)
    ensures XorDelta(XorDelta(a, b), b) == Padded(a, Longer(|a|, |b|))
  {
    hide Xor;
    forall i | 0 <= i < Longer(|a|, |b|)
      ensures XorDelta(XorDelta(a, b), b)[i] == Padded(a, Longer(|a|, |b|))[i]
    {
      XorLaws(At(a, i), At(b, i));
    }
  }

  lemma CanonicalDelta(s: seq<byte>)
    ensures XorDelta(s, s) == Repeat(0, |s|)
  {
    hide Xor;
    forall i | 0 <= i < |s| ensures XorDelta(s, s)[i] == 0 {
      XorLaws(s[i], s[i]);
    }
  }

  /** The delta between a string and its reverse reads the same both ways. */
  lemma ReverseDeltaIsPalindrome(s: seq<byte>)
    ensures Reversed(XorDelta(s, Reversed(s))) == XorDelta(s, Reversed(s))
  {
    hide Xor;
    var d := XorDelta(s, Reversed(s));
    forall i | 0 <= i < |s| ensures Reversed(d)[i] == d[i] {
      XorLaws(s[i], s[|s| - 1 - i]);
    }
  }

  /** The inter-reversed delta is a fixed point of inter-reversal. */
  lemma InterDeltaIsFixed(s: seq<byte>)
    ensures InterReversed(XorDelta(s, InterReversed(s))) == XorDelta(s, InterReversed(s))
  {
    hide Xor;
    var d := XorDelta(s, InterReversed(s));
    forall i | 0 <= i < |s| ensures InterReversed(d)[i] == d[i] {
      InterSourceTwice(|s|, i);
      XorLaws(s[i], s[InterSource(|s|, i)]);
    }
  }
}
