/** The callers in delta_link_ffi.lua: they size the buffers that the C core fills. */
module DeltaLink {
  import opened Octets
  import opened XorOctets
  import RunLength
  import RunLengthCode
  import opened Links
  import opened BlockHashes

  datatype Result<T> = Ok(value: T) | Corrupt

  /** M.pack: a size pass, then a fill pass into a buffer of that size. */
  method PackString(data: seq<byte>) returns (packed: seq<byte>)
    ensures packed == RunLength.Pack(data)
  {
    var need := RunLengthCode.PackRle(data, null, 0);
    var out := new byte[need](_ => 0);
    var wrote := RunLengthCode.PackRle(data, out, need);
    RunLengthCode.RoomForAll(Repeat(0, need), data, need);
    assert out[..need] == out[..];
    packed := out[..wrote];
  }

  /** What M.unpack answers. A decoded length of 0 is its only sign of corruption, so a stream
      that says "no bytes" without being empty itself is taken for a corrupt one. */
  function Unpacked(s: seq<byte>): Result<seq<byte>> {
    if RunLength.Accepts(s) && (RunLength.Decoded(s) != [] || s == [])
    then Ok(RunLength.Decoded(s)) else Corrupt
  }

  /** M.unpack */
  method UnpackString(data: seq<byte>) returns (r: Result<seq<byte>>)
    ensures r == Unpacked(data)
  {
    var need := RunLengthCode.UnpackRle(data, null, 0);
    if need == 0 && |data| > 0 {
      return Corrupt;
    }
    var out := new byte[need](_ => 0);
    var wrote := RunLengthCode.UnpackRle(data, out, need);
    if wrote == 0 && |data| > 0 {
      return Corrupt;
    }
    assert Take(RunLength.Decoded(data), need) == RunLength.Decoded(data);
    r := Ok(out[..wrote]);
  }

  /** M.unpack(M.pack(s)) is s, never a report of corruption. */
  lemma PackedStringsUnpack(s: seq<byte>)
    ensures Unpacked(RunLength.Pack(s)) == Ok(s)
  {
    hide RunLength.Pack, RunLength.Accepts, RunLength.Decoded;
    RunLength.RoundTrip(s);
    if s == [] {
      EmptyPack();
    }
  }

  lemma EmptyPack()
    ensures RunLength.Pack([]) == []
  {
  }

  predicate OnlyEmptyRuns(s: seq<byte>) {
    s == [] || (|s| >= 3 && s[0] == RunLength.MARKER && s[1] == 0 && OnlyEmptyRuns(s[3..]))
  }

  /** A stream that the strict reader takes is reported corrupt exactly when it is non-empty and
      made of zero-length runs only; `FF 00 07` is one. */
  lemma {:induction false} AcceptedYetCorrupt(s: seq<byte>)
    requires RunLength.Accepts(s)
    ensures RunLength.Decoded(s) == [] <==> OnlyEmptyRuns(s)
    ensures Unpacked(s) == Corrupt <==> s != [] && OnlyEmptyRuns(s)
  {
    if s != [] && s[0] == RunLength.MARKER {
      AcceptedYetCorrupt(s[3..]);
    }
  }

  lemma EmptyRunIsReportedCorrupt()
    ensures RunLength.Accepts([0xFF, 0, 7]) && Unpacked([0xFF, 0, 7]) == Corrupt
  {
    var s: seq<byte> := [0xFF, 0, 7];
    assert s[3..] == [];
  }

  /** M.block_hashes with the capacity it allocates: max(1, ceil(n / block_size)). */
  method BlockHashList(data: seq<byte>, blockSize: nat) returns (hashes: seq<u64>)
    requires blockSize > 0
    ensures hashes == Hashes(data, blockSize)
  {
    var n := |data|;
    var ceil := (n + blockSize - 1) / blockSize;
    var cap := if ceil > 1 then ceil else 1;
    BlocksPartition(data, blockSize);
    CapacityIsCount(n, blockSize);
    var out := new u64[cap](_ => 0);
    var count := BlockHashesInto(data, blockSize, out, cap);
    assert Take(Hashes(data, blockSize), cap) == Hashes(data, blockSize);
    hashes := out[..count];
  }

  /** The rounding of the capacity is that of the block count. */
  lemma CapacityIsCount(n: nat, blockSize: nat)
    requires blockSize > 0
    ensures BlockCount(n, blockSize)
            == if (n + blockSize - 1) / blockSize > 1 then (n + blockSize - 1) / blockSize else 1
  {
    if n == 0 {
      QuotientIs(blockSize - 1, blockSize, 0, blockSize - 1);
    } else if n <= blockSize {
      CountOne(n, blockSize);
    }
  }

  method ReverseString(data: seq<byte>) returns (r: seq<byte>)
    ensures r == Reversed(data)
  {
    var n := |data|;
    var buf := new byte[n](i requires 0 <= i < n => data[i]);
    var out := new byte[n](_ => 0);
    ReverseCanonical(buf, n, out);
    assert buf[..n] == data;
    r := out[..n];
  }

  method InterReverseString(data: seq<byte>) returns (r: seq<byte>)
    ensures r == InterReversed(data)
  {
    var n := |data|;
    var buf := new byte[n](i requires 0 <= i < n => data[i]);
    var out := new byte[n](_ => 0);
    InterReverse(buf, n, out);
    assert buf[..n] == data;
    r := out[..n];
  }

  method XorStrings(a: seq<byte>, b: seq<byte>) returns (r: seq<byte>)
    ensures r == XorDelta(a, b)
  {
    var abuf := new byte[|a|](i requires 0 <= i < |a| => a[i]);
    var bbuf := new byte[|b|](i requires 0 <= i < |b| => b[i]);
    var n := if |a| > |b| then |a| else |b|;
    var out := new byte[n](_ => 0);
    XorInto(abuf, |a|, bbuf, |b|, out);
    assert abuf[..|a|] == a && bbuf[..|b|] == b;
    r := out[..n];
  }

  /** The three links of one source, their deltas against it, and all the hashes. */
  datatype Manifest = Manifest(
    lengths: seq<nat>,
    hashes: seq<u64>,
    deltaHashes: seq<u64>,
    blocks: seq<seq<u64>>)

  lemma HashCount(data: seq<byte>, blockSize: nat)
    requires blockSize > 0
    ensures |Hashes(data, blockSize)| == BlockCount(|data|, blockSize)
  {
    BlocksPartition(data, blockSize);
  }

  lemma FourEach(a: seq<u64>, b: seq<u64>, c: seq<u64>, d: seq<u64>, n: nat)
    requires |a| == |b| == |c| == |d| == n
    ensures forall s :: s in [a, b, c, d] ==> |s| == n
  {
  }

  /** M.manifest_from_data up to the text it prints: source, canonical, reverse, inter-reversed. */
  method ManifestFromData(data: seq<byte>, blockSize: nat) returns (m: Manifest)
    requires blockSize > 0
    ensures m.lengths == [|data|, |data|, |data|, |data|]
    ensures m.hashes == [Fnv(data), Fnv(data), Fnv(Reversed(data)), Fnv(InterReversed(data))]
    ensures m.deltaHashes == [Fnv(Repeat(0, |data|)), Fnv(XorDelta(data, Reversed(data))),
                              Fnv(XorDelta(data, InterReversed(data)))]
    ensures m.blocks == [Hashes(data, blockSize), Hashes(data, blockSize),
                         Hashes(Reversed(data), blockSize), Hashes(InterReversed(data), blockSize)]
    ensures forall b :: b in m.blocks ==> |b| == BlockCount(|data|, blockSize)
  {
    hide Fnv, Hashes, Reversed, InterReversed, XorDelta, BlockCount;
    var canonical := data;
    var reverse := ReverseString(data);
    var inter := InterReverseString(data);
    var dCan := XorStrings(data, canonical);
    var dRev := XorStrings(data, reverse);
    var dInt := XorStrings(data, inter);
    CanonicalDelta(data);
    var b0 := BlockHashList(data, blockSize);
    var b1 := BlockHashList(canonical, blockSize);
    var b2 := BlockHashList(reverse, blockSize);
    var b3 := BlockHashList(inter, blockSize);
    HashCount(data, blockSize);
    HashCount(reverse, blockSize);
    HashCount(inter, blockSize);
    FourEach(b0, b1, b2, b3, BlockCount(|data|, blockSize));
    var h0 := Fnv1a64(data);
    var h1 := Fnv1a64(canonical);
    var h2 := Fnv1a64(reverse);
    var h3 := Fnv1a64(inter);
    var e0 := Fnv1a64(dCan);
    var e1 := Fnv1a64(dRev);
    var e2 := Fnv1a64(dInt);
    m := Manifest([|data|, |canonical|, |reverse|, |inter|], [h0, h1, h2, h3], [e0, e1, e2], [b0, b1, b2, b3]);
  }
}
