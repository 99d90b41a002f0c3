/** The 64-bit hash of deltaffi.c and its block-wise use. */
module BlockHashes {
  import opened Octets
  import opened XorOctets

  const U64: int := 0x1_0000_0000_0000_0000
  newtype u64 = x: int | 0 <= x < 0x1_0000_0000_0000_0000

  const OFFSET_BASIS: u64 := 1469598103934665603
  const PRIME: u64 := 1099511628211

  lemma LowOctet(h: int)
    requires 0 <= h < U64
    ensures 0 <= h % 256 < 256 && 0 <= h - h % 256 <= U64 - 256
  {
  }

  /** `h ^ b` for a zero-extended byte: only the low octet of the word changes. */
  function XorLow(h: u64, b: byte): u64 {
    LowOctet(h as int);
    h - h % 256 + (Xor((h % 256) as byte, b) as u64)
  }

  /** A product of two words, cut to 64 bits. */
  function Times(h: u64, k: u64): u64 {
    ((h as int * k as int) % U64) as u64
  }

  function Step(h: u64, b: byte): u64 {
    Times(XorLow(h, b), PRIME)
  }

  function FnvFrom(h: u64, s: seq<byte>): u64
    decreases s
  {
    if s == [] then h else FnvFrom(Step(h, s[0]), s[1..])
  }

  function Fnv(s: seq<byte>): u64 {
    FnvFrom(OFFSET_BASIS, s)
  }

  // ----- what the hash is

  lemma {:induction false} FnvFromAppends(h: u64, s: seq<byte>, b: byte)
    ensures FnvFrom(h, s + [b]) == Step(FnvFrom(h, s), b)
    decreases s
  {
    hide Step;
    if s == [] {
      assert ([] + [b])[1..] == [] && s + [b] == [b];
    } else {
      assert (s + [b])[1..] == s[1..] + [b];
      FnvFromAppends(Step(h, s[0]), s[1..], b);
    }
  }

  /** The hash starts from the basis; each byte is xored in first, and the result multiplied modulo 2^64. */
  lemma FnvAppends(s: seq<byte>, b: byte)
    ensures Fnv([]) == 1469598103934665603
    ensures Fnv(s + [b]) as int == XorLow(Fnv(s), b) as int * 1099511628211 % 0x1_0000_0000_0000_0000
  {
    assert Fnv([]) == OFFSET_BASIS;
    FnvFromAppends(OFFSET_BASIS, s, b);
    hide XorLow, FnvFrom;
  }

  /** A number of eight bits has no others. */
  lemma {:induction false} HighBitsZero(a: nat, n: nat, j: nat)
    requires a < Pow2(n) && n <= j
    ensures BitAt(a, j) == 0
    decreases j
  {
    if n == 0 {
      if j > 0 {
        HighBitsZero(0, 0, j - 1);
      }
    } else {
      HighBitsZero(a / 2, n - 1, j - 1);
    }
  }

  /** The bits of a number with `n` bits put below another one. */
  lemma {:induction false} LowBits(hi: nat, lo: nat, n: nat, j: nat)
    requires lo < Pow2(n)
    ensures BitAt(hi * Pow2(n) + lo, j) == if j < n then BitAt(lo, j) else BitAt(hi, j - n)
    decreases n
  {
    if n > 0 {
      var x := hi * Pow2(n) + lo;
      HalfOf(hi, Pow2(n - 1), lo);
      if j > 0 {
        LowBits(hi, lo / 2, n - 1, j - 1);
      }
    }
  }

  lemma HalfOf(hi: nat, p: nat, lo: nat)
    ensures (hi * (2 * p) + lo) / 2 == hi * p + lo / 2 && (hi * (2 * p) + lo) % 2 == lo % 2
  {
    assert hi * (2 * p) == 2 * (hi * p);
  }

  lemma XorLowParts(h: u64, b: byte)
    ensures XorLow(h, b) as int == h as int / 256 * 256 + Xor((h % 256) as byte, b) as int
    ensures (h % 256) as byte as int == h as int % 256
  {
    hide Xor;
  }

  /** A byte is xored into a word bit by bit. */
  lemma XorLowIsBitwise(h: u64, b: byte, j: nat)
    ensures BitAt(XorLow(h, b) as nat, j) == (BitAt(h as nat, j) + BitAt(b as nat, j)) % 2
  {
    hide Xor, XorLow, BitAt;
    OctetBits();
    XorLowParts(h, b);
    var lo, hi := h as int % 256, h as int / 256;
    var x := Xor((h % 256) as byte, b);
    LowBits(hi, lo, 8, j);
    LowBits(hi, x as int, 8, j);
    if j < 8 {
      XorIsBitwise((h % 256) as byte, b, j);
    } else {
      HighBitsZero(b as int, 8, j);
      BitIsBit(hi, j - 8);
    }
  }

  lemma {:induction false} BitIsBit(a: nat, j: nat)
    ensures BitAt(a, j) < 2
    decreases j
  {
    if j > 0 {
      BitIsBit(a / 2, j - 1);
    }
  }

  /** How `data` is cut: whole blocks, then what is left; an empty string is one empty block. */
  function Blocks(data: seq<byte>, blockSize: nat): (r: seq<seq<byte>>)
    requires blockSize > 0
  {
    if |data| <= blockSize then [data] else [data[..blockSize]] + Blocks(data[blockSize..], blockSize)
  }

  function Hashes(data: seq<byte>, blockSize: nat): (r: seq<u64>)
    requires blockSize > 0
    ensures |r| == |Blocks(data, blockSize)|
  {
    if |data| <= blockSize then [Fnv(data)] else [Fnv(data[..blockSize])] + Hashes(data[blockSize..], blockSize)
  }

  /** ceil(len / blockSize), but at least one. */
  function BlockCount(len: nat, blockSize: nat): nat
    requires blockSize > 0
  {
    if len == 0 then 1 else (len + blockSize - 1) / blockSize
  }

  // ----- the loops

  /** dl_fnv1a64 */
  method Fnv1a64(data: seq<byte>) returns (h: u64)
    ensures h == Fnv(data)
  {
    hide Step;
    h := OFFSET_BASIS;
    var i := 0;
    assert data[0..] == data;
    while i < |data|
      invariant i <= |data|
      invariant FnvFrom(h, data[i..]) == Fnv(data)
    {
      assert data[i..][1..] == data[i + 1..];
      h := Step(h, data[i]);
      i := i + 1;
    }
  }

  /** The part of `data` the loop hashes at offset `off`. */
  function BlockFrom(data: seq<byte>, off: nat, blockSize: nat): seq<byte>
    requires off <= |data|
  {
    if off + blockSize > |data| then data[off..] else data[off..off + blockSize]
  }

  lemma BlockFromRest(data: seq<byte>, o: nat, blockSize: nat)
    requires blockSize <= |data| && o <= |data| - blockSize
    ensures BlockFrom(data[blockSize..], o, blockSize) == BlockFrom(data, o + blockSize, blockSize)
  {
    var rest := data[blockSize..];
    if o + blockSize > |rest| {
      assert rest[o..] == data[o + blockSize..];
    } else {
      assert rest[o..o + blockSize] == data[o + blockSize..o + blockSize + blockSize];
    }
  }

  /** One hash and the rest. */
  lemma HashesStep(data: seq<byte>, blockSize: nat)
    requires blockSize > 0
    ensures |data| <= blockSize ==> Hashes(data, blockSize) == [Fnv(data)]
    ensures |data| > blockSize ==>
              Hashes(data, blockSize) == [Fnv(data[..blockSize])] + Hashes(data[blockSize..], blockSize)
    ensures BlockFrom(data, 0, blockSize) == if |data| <= blockSize then data else data[..blockSize]
  {
    hide Fnv;
  }

  lemma NextOffset(k: nat, blockSize: nat)
    requires k > 0
    ensures k * blockSize == (k - 1) * blockSize + blockSize
  {
  }

  /** The `k`-th hash belongs to the block at offset `o`, which is `k * blockSize`, and the next offset is
      inside the data exactly when there is a next hash. */
  lemma HashesAt(data: seq<byte>, blockSize: nat, k: nat, o: nat)
    requires blockSize > 0 && k < |Hashes(data, blockSize)| && o == k * blockSize
    ensures o <= |data| && (data != [] ==> o < |data|)
    ensures Hashes(data, blockSize)[k] == Fnv(BlockFrom(data, o, blockSize))
    ensures k + 1 < |Hashes(data, blockSize)| <==> o + blockSize < |data|
    decreases k
  {
    hide Fnv, Hashes, BlockFrom;
    HashesStep(data, blockSize);
    if k > 0 {
      NextOffset(k, blockSize);
      HashesAt(data[blockSize..], blockSize, k - 1, o - blockSize);
      BlockFromRest(data, o - blockSize, blockSize);
    }
  }

  /** Storing the next hash behind the ones already stored. */
  lemma StoreHash(orig: seq<u64>, before: seq<u64>, after: seq<u64>, hashes: seq<u64>, count: nat)
    requires count < |hashes| && count < |orig|
    requires before == Overwrite(orig, hashes[..count]) && after == before[count := hashes[count]]
    ensures after == Overwrite(orig, hashes[..count + 1])
  {
  }

  /** The loop over the blocks of a non-empty string. */
  method FillHashes(data: seq<byte>, blockSize: nat, out: array<u64>, outCap: nat) returns (count: nat)
    requires blockSize > 0 && outCap <= out.Length && data != []
    modifies out
    ensures count == |Take(Hashes(data, blockSize), outCap)|
    ensures out[..] == Overwrite(old(out[..]), Take(Hashes(data, blockSize), outCap))
  {
    hide Fnv, Hashes, Overwrite;
    ghost var hashes := Hashes(data, blockSize);
    ghost var orig := out[..];
    count := 0;
    var off := 0;
    AnyHash(data, blockSize);
    assert hashes[..0] == [];
    assert Overwrite(orig, []) == orig by { OverwriteNothing(orig); }
    while off < |data|
      invariant count <= |hashes| && count <= outCap
      invariant off == count * blockSize
      invariant off < |data| <==> count < |hashes|
      invariant out[..] == Overwrite(orig, hashes[..count])
    {
      var n := blockSize;
      if off + n > |data| {
        n := |data| - off;
      }
      if count >= outCap {
        break;
      }
      HashesAt(data, blockSize, count, off);
      NextOffset(count + 1, blockSize);
      assert data[off..off + n] == BlockFrom(data, off, blockSize);
      ghost var before := out[..];
      out[count] := Fnv1a64(data[off..off + n]);
      StoreHash(orig, before, out[..], hashes, count);
      count := count + 1;
      off := off + blockSize;
    }
    assert hashes[..count] == Take(hashes, outCap);
  }

  lemma OverwriteNothing(orig: seq<u64>)
    ensures Overwrite(orig, []) == orig
  {
  }

  /** dl_block_hashes: nothing without a buffer or a block size; else the block hashes in order, as
      many as the buffer takes. */
  method BlockHashesInto(data: seq<byte>, blockSize: nat, out: array?<u64>, outCap: nat) returns (count: nat)
    requires out != null ==> outCap <= out.Length
    modifies out
    ensures out == null || outCap == 0 || blockSize == 0 ==> count == 0
    ensures out != null && (outCap == 0 || blockSize == 0) ==> out[..] == old(out[..])
    ensures out != null && outCap > 0 && blockSize > 0 ==>
              && count == |Take(Hashes(data, blockSize), outCap)|
              && out[..] == Overwrite(old(out[..]), Take(Hashes(data, blockSize), outCap))
  {
    if out == null || outCap == 0 {
      return 0;
    }
    if blockSize == 0 {
      return 0;
    }
    if |data| == 0 {
      EmptyHash(data, blockSize);
      out[0] := Fnv1a64([]);
      return 1;
    }
    count := FillHashes(data, blockSize, out, outCap);
  }

  lemma EmptyHash(data: seq<byte>, blockSize: nat)
    requires blockSize > 0 && data == []
    ensures Hashes(data, blockSize) == [Fnv([])]
  {
  }

  lemma AnyHash(data: seq<byte>, blockSize: nat)
    requires blockSize > 0
    ensures |Hashes(data, blockSize)| > 0 && 0 * blockSize == 0
  {
  }

  // ----- one changed byte always changes the hash

  lemma XorLowCancel(h: u64, b: byte)
    ensures XorLow(XorLow(h, b), b) == h
  {
    hide Xor;
    XorLaws((h % 256) as byte, b);
  }

  /** Multiplying by the odd prime loses nothing modulo 2^64. */
  lemma TimesPrimeInjective(h1: u64, h2: u64)
    requires Times(h1, PRIME) == Times(h2, PRIME)
    ensures h1 == h2
  {
    var d := h1 as int - h2 as int;
    var k := (h1 as int * PRIME as int) / U64 - (h2 as int * PRIME as int) / U64;
    assert d * 1099511628211 == k * 0x1_0000_0000_0000_0000;
    assert d == 0x1_0000_0000_0000_0000 * (k * 14886173955864302971 - d * 887285111055);
  }

  /** Each step is a bijection of the state for a fixed byte, and tells bytes apart for a fixed state. */
  lemma StepInjective(h1: u64, h2: u64, a: byte, b: byte)
    requires Step(h1, a) == Step(h2, b)
    ensures a == b ==> h1 == h2
    ensures h1 == h2 ==> a == b
  {
    hide Xor, Times;
    TimesPrimeInjective(XorLow(h1, a), XorLow(h2, b));
    XorLowCancel(h1, a);
    XorLowCancel(h2, b);
    if h1 == h2 {
      var l := (h1 % 256) as byte;
      XorLaws(l, a);
      XorLaws(l, b);
      XorLaws(a, l);
      XorLaws(b, l);
    }
  }

  lemma {:induction false} FnvFromInjective(h1: u64, h2: u64, s: seq<byte>)
    requires FnvFrom(h1, s) == FnvFrom(h2, s)
    ensures h1 == h2
    decreases s
  {
    hide Step;
    if s != [] {
      FnvFromInjective(Step(h1, s[0]), Step(h2, s[0]), s[1..]);
      StepInjective(h1, h2, s[0], s[0]);
    }
  }

  predicate DifferAt(x: seq<byte>, y: seq<byte>, pos: nat) {
    && |x| == |y| && pos < |x| && x[pos] != y[pos]
    && forall j :: 0 <= j < |x| && j != pos ==> x[j] == y[j]
  }

  lemma {:induction false} FnvFromTellsApart(h: u64, x: seq<byte>, y: seq<byte>, pos: nat)
    requires DifferAt(x, y, pos)
    ensures FnvFrom(h, x) != FnvFrom(h, y)
    decreases pos
  {
    hide Step;
    if pos == 0 {
      assert x[1..] == y[1..];
      if FnvFrom(h, x) == FnvFrom(h, y) {
        FnvFromInjective(Step(h, x[0]), Step(h, y[0]), x[1..]);
        StepInjective(h, h, x[0], y[0]);
      }
    } else {
      assert x[0] == y[0];
      FnvFromTellsApart(Step(h, x[0]), x[1..], y[1..], pos - 1);
    }
  }

  /** Two strings of one length that differ in exactly one byte never share a hash. */
  lemma SingleByteSensitivity(x: seq<byte>, y: seq<byte>, pos: nat)
    requires DifferAt(x, y, pos)
    ensures Fnv(x) != Fnv(y)
  {
    FnvFromTellsApart(OFFSET_BASIS, x, y, pos);
  }

  // ----- blocks

  function Joined(bs: seq<seq<byte>>): seq<byte> {
    if bs == [] then [] else bs[0] + Joined(bs[1..])
  }

  lemma CountStep(len: nat, blockSize: nat)
    requires 0 < blockSize < len
    ensures BlockCount(len, blockSize) == 1 + BlockCount(len - blockSize, blockSize)
  {
    var q := (len - blockSize + blockSize - 1) / blockSize;
    var r := (len - blockSize + blockSize - 1) % blockSize;
    assert len + blockSize - 1 == (q + 1) * blockSize + r;
    QuotientIs(len + blockSize - 1, blockSize, q + 1, r);
  }

  lemma QuotientIs(n: int, d: int, q: int, r: int)
    requires 0 <= r < d && n == q * d + r
    ensures n / d == q
  {
    var k := n / d - q;
    assert n == (n / d) * d + n % d;
    assert k * d == r - n % d;
    assert k >= 1 ==> k * d >= d;
    assert k <= -1 ==> k * d <= -d;
  }

  lemma CountOne(len: nat, blockSize: nat)
    requires blockSize > 0 && len <= blockSize
    ensures BlockCount(len, blockSize) == 1
  {
    if len > 0 {
      QuotientIs(len + blockSize - 1, blockSize, 1, len - 1);
    }
  }

  lemma JoinedStep(b: seq<byte>, rest: seq<seq<byte>>)
    ensures Joined([b] + rest) == b + Joined(rest)
    ensures Joined([]) == [] && [b] + [] == [b]
  {
    assert ([b] + rest)[1..] == rest;
  }

  lemma BlocksStep(data: seq<byte>, blockSize: nat)
    requires blockSize > 0
    ensures Blocks(data, blockSize)
            == if |data| <= blockSize then [data] else [data[..blockSize]] + Blocks(data[blockSize..], blockSize)
  {
  }

  /** The blocks partition the string, and there are ceil(len / blockSize) of them, at least one. */
  lemma {:induction false} BlocksPartition(data: seq<byte>, blockSize: nat)
    requires blockSize > 0
    ensures Joined(Blocks(data, blockSize)) == data
    ensures |Blocks(data, blockSize)| == BlockCount(|data|, blockSize)
    ensures forall b :: b in Blocks(data, blockSize) ==> |b| <= blockSize
  {
    hide Blocks, BlockCount, Joined;
    BlocksStep(data, blockSize);
    if |data| <= blockSize {
      CountOne(|data|, blockSize);
      JoinedStep(data, []);
    } else {
      CountStep(|data|, blockSize);
      BlocksPartition(data[blockSize..], blockSize);
      JoinedStep(data[..blockSize], Blocks(data[blockSize..], blockSize));
    }
  }

  /** The block a position falls in. */
  function BlockIndex(pos: nat, blockSize: nat): nat
    requires blockSize > 0
  {
    pos / blockSize
  }

  /** A single changed byte alters exactly one block hash: the one at index pos / blockSize. */
  lemma {:induction false} OneBlockHashChanges(x: seq<byte>, y: seq<byte>, pos: nat, blockSize: nat)
    requires DifferAt(x, y, pos) && blockSize > 0
    ensures DifferOnlyAt(Hashes(x, blockSize), Hashes(y, blockSize), BlockIndex(pos, blockSize))
    decreases |x|
  {
    assert |x| == |y| && pos < |x|;
    QuotientShift(pos, blockSize);
    hide Fnv, DifferAt, BlockIndex;
    if |x| <= blockSize {
      SingleByteSensitivity(x, y, pos);
    } else if pos < blockSize {
      DifferHere(x, y, pos, blockSize);
      SingleByteSensitivity(x[..blockSize], y[..blockSize], pos);
    } else {
      DifferLater(x, y, pos, blockSize);
      OneBlockHashChanges(x[blockSize..], y[blockSize..], pos - blockSize, blockSize);
      DifferBehind(Hashes(x[blockSize..], blockSize), Hashes(y[blockSize..], blockSize),
                   BlockIndex(pos - blockSize, blockSize), Fnv(x[..blockSize]));
    }
  }

  /** Two lists of one length that differ exactly at index `p`. */
  predicate DifferOnlyAt(a: seq<u64>, b: seq<u64>, p: nat) {
    && |a| == |b| && p < |a|
    && forall k :: 0 <= k < |a| ==> (a[k] != b[k] <==> k == p)
  }

  lemma DifferBehind(a: seq<u64>, b: seq<u64>, p: nat, h: u64)
    requires DifferOnlyAt(a, b, p)
    ensures DifferOnlyAt([h] + a, [h] + b, p + 1)
  {
  }

  lemma QuotientShift(pos: nat, blockSize: nat)
    requires blockSize > 0
    ensures pos < blockSize ==> BlockIndex(pos, blockSize) == 0
    ensures pos >= blockSize ==> BlockIndex(pos, blockSize) == BlockIndex(pos - blockSize, blockSize) + 1
  {
    if pos < blockSize {
      QuotientIs(pos, blockSize, 0, pos);
    } else {
      var p := pos - blockSize;
      assert pos == (BlockIndex(p, blockSize) + 1) * blockSize + p % blockSize;
      QuotientIs(pos, blockSize, BlockIndex(p, blockSize) + 1, p % blockSize);
    }
  }

  lemma DifferHere(x: seq<byte>, y: seq<byte>, pos: nat, n: nat)
    requires DifferAt(x, y, pos) && pos < n < |x|
    ensures |x| == |y| && DifferAt(x[..n], y[..n], pos) && x[n..] == y[n..]
  {
  }

  lemma DifferLater(x: seq<byte>, y: seq<byte>, pos: nat, n: nat)
    requires DifferAt(x, y, pos) && n <= pos
    ensures |x| == |y| && pos < |x| && x[..n] == y[..n] && DifferAt(x[n..], y[n..], pos - n)
  {
  }
}
