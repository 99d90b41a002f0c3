/** The two loops of deltaffi.c, proved against the stream functions of RunLength. */
module RunLengthCode {
  import opened Octets
  import opened RunLength

  /** The scan the packer makes from index `i`: the length of the run it will emit. */
  method ScanRun(src: seq<byte>, i: nat) returns (run: nat)
    requires i < |src|
    ensures 0 < run <= MAX_RUN && i + run <= |src|
    ensures run == RunFrom(src[i..], 1)
  {
    var b := src[i];
    run := 1;
    while i + run < |src| && run < MAX_RUN && src[i + run] == b
      invariant 0 < run <= MAX_RUN && i + run <= |src|
      invariant RunFrom(src[i..], 1) == RunFrom(src[i..], run)
    {
      run := run + 1;
    }
  }

  lemma LiteralsSnoc(b: byte, j: nat)
    ensures Literals(b, j) + [Literal(b)] == Literals(b, j + 1)
  {
  }

  lemma AppendToken(ts: seq<Token>, t: Token)
    ensures EncodeAll(ts + [t]) == EncodeAll(ts) + Encode(t)
  {
    EncodeAllConcat(ts, [t]);
    assert [t][1..] == [];
  }

  lemma OverwriteMore(orig: seq<byte>, d: seq<byte>, e: seq<byte>)
    requires |d| + |e| <= |orig|
    ensures |Overwrite(orig, d)| == |orig|
    ensures Overwrite(orig, d)[..|d|] + e + Overwrite(orig, d)[|d| + |e|..] == Overwrite(orig, d + e)
  {
  }

  /** Storing one more token where it fits keeps the buffer equal to the clipped stream. */
  lemma StoreToken(orig: seq<byte>, before: seq<byte>, after: seq<byte>, ts: seq<Token>, t: Token, cap: nat)
    requires cap <= |orig|
    requires before == Overwrite(orig, Clip(ts, cap))
    requires var w := |EncodeAll(ts)|;
             if w + |Encode(t)| <= cap
             then |after| == |orig| && after == before[..w] + Encode(t) + before[w + |Encode(t)|..]
             else after == before
    ensures after == Overwrite(orig, Clip(ts + [t], cap))
  {
    hide EncodeAll, Encode, Clip;
    ClipSnoc(ts, t, cap);
    if |EncodeAll(ts)| + |Encode(t)| <= cap {
      ClipWhole(ts, cap);
      OverwriteMore(orig, EncodeAll(ts), Encode(t));
    }
  }

  lemma NothingYet(src: seq<byte>, orig: seq<byte>, cap: nat)
    ensures EncodeAll([]) == [] && Overwrite(orig, Clip([], cap)) == orig
    ensures Tokens(src) == [] + Tokens(src[0..])
  {
    assert src[0..] == src;
  }

  /** The packer's next step from index `i`, with the whole token it emits for a long run. */
  lemma NextTokens(src: seq<byte>, i: nat, run: nat)
    requires i < |src| && run == RunFrom(src[i..], 1) && i + run <= |src|
    ensures Tokens(src[i..]) == RunTokens(src[i], run) + Tokens(src[i + run..])
    ensures forall j :: i <= j < i + run ==> src[j] == src[i]
  {
    var rest := src[i..];
    assert rest[run..] == src[i + run..];
    RunFromIsRun(rest, 1);
    forall j | i <= j < i + run ensures src[j] == src[i] {
      assert src[j] == rest[..run][j - i];
    }
  }

  lemma NoTokensLeft(src: seq<byte>, i: nat)
    requires i == |src|
    ensures Tokens(src[i..]) == []
  {
  }

  /** What the output buffer must hold once the tokens `ts` were emitted; a size pass has no buffer. */
  ghost predicate Holds(out: array?<byte>, orig: seq<byte>, ts: seq<Token>, cap: nat)
    reads out
  {
    out != null ==> |orig| == out.Length && cap <= out.Length && out[..] == Overwrite(orig, Clip(ts, cap))
  }

  /** The packed branch: marker, count, byte, if all three fit. */
  method EmitRun(out: array?<byte>, outCap: nat, written: nat, run: nat, b: byte,
                 ghost orig: seq<byte>, ghost done: seq<Token>)
    requires 0 < run <= MAX_RUN && written == |EncodeAll(done)|
    requires Holds(out, orig, done, outCap)
    modifies out
    ensures Holds(out, orig, done + [Run(run as byte, b)], outCap)
    ensures written + 3 == |EncodeAll(done + [Run(run as byte, b)])|
  {
    hide EncodeAll, Clip, Overwrite;
    ghost var t := Run(run as byte, b);
    AppendToken(done, t);
    if out != null {
      ghost var before := out[..];
      if written + 3 <= outCap {
        out[written] := 0xFF;
        out[written + 1] := run as byte;
        out[written + 2] := b;
      }
      StoreToken(orig, before, out[..], done, t, outCap);
    }
  }

  /** The literal branch, one byte of it. */
  method EmitLiteral(out: array?<byte>, outCap: nat, written: nat, b: byte,
                     ghost orig: seq<byte>, ghost done: seq<Token>)
    requires written == |EncodeAll(done)|
    requires Holds(out, orig, done, outCap)
    modifies out
    ensures Holds(out, orig, done + [Literal(b)], outCap)
    ensures written + 1 == |EncodeAll(done + [Literal(b)])|
  {
    hide EncodeAll, Clip, Overwrite;
    ghost var t := Literal(b);
    AppendToken(done, t);
    if out != null {
      ghost var before := out[..];
      if written + 1 <= outCap {
        out[written] := b;
      }
      StoreToken(orig, before, out[..], done, t, outCap);
    }
  }

  /** The literal branch. */
  method EmitLiterals(src: seq<byte>, i: nat, run: nat, out: array?<byte>, outCap: nat, written: nat,
                      ghost orig: seq<byte>, ghost done: seq<Token>)
    requires i + run <= |src| && written == |EncodeAll(done)|
    requires run > 0 && forall j :: i <= j < i + run ==> src[j] == src[i]
    requires Holds(out, orig, done, outCap)
    modifies out
    ensures Holds(out, orig, done + Literals(src[i], run), outCap)
    ensures written + run == |EncodeAll(done + Literals(src[i], run))|
  {
    hide EncodeAll, Holds, Literals;
    ghost var b := src[i];
    var j := 0;
    assert done + Literals(b, 0) == done;
    while j < run
      invariant j <= run
      invariant written + j == |EncodeAll(done + Literals(b, j))|
      invariant Holds(out, orig, done + Literals(b, j), outCap)
    {
      EmitLiteral(out, outCap, written + j, src[i + j], orig, done + Literals(b, j));
      LiteralsSnoc(b, j);
      assert done + Literals(b, j) + [Literal(b)] == done + Literals(b, j + 1);
      j := j + 1;
    }
  }

  /** dl_pack_rle: the size is that of the whole packed form whatever the buffer is; a buffer
      receives exactly the longest prefix of whole tokens that fits, and nothing else of it changes. */
  method PackRle(src: seq<byte>, out: array?<byte>, outCap: nat) returns (written: nat)
    requires out != null ==> outCap <= out.Length
    modifies out
    ensures written == |Pack(src)|
    ensures out != null ==> out[..] == Overwrite(old(out[..]), Clip(Tokens(src), outCap))
  {
    hide Tokens, RunTokens, RunFrom, EncodeAll, Literals;
    var i := 0;
    written := 0;
    ghost var done: seq<Token> := [];
    ghost var orig := if out != null then out[..] else [];
    NothingYet(src, orig, outCap);
    while i < |src|
      invariant i <= |src|
      invariant Tokens(src) == done + Tokens(src[i..])
      invariant written == |EncodeAll(done)|
      invariant Holds(out, orig, done, outCap)
    {
      var b := src[i];
      var run := ScanRun(src, i);
      NextTokens(src, i, run);
      MoveOver(Tokens(src), done, RunTokens(b, run), Tokens(src[i + run..]));
      RunTokensCases(b, run);
      if run >= MIN_RUN || b == MARKER {
        EmitRun(out, outCap, written, run, b, orig, done);
        done := done + [Run(run as byte, b)];
        written := written + 3;
      } else {
        EmitLiterals(src, i, run, out, outCap, written, orig, done);
        done := done + Literals(b, run);
        written := written + run;
      }
      i := i + run;
    }
    NoTokensLeft(src, i);
    assert done == Tokens(src);
  }

  lemma MoveOver(all: seq<Token>, done: seq<Token>, next: seq<Token>, rest: seq<Token>)
    requires all == done + (next + rest)
    ensures all == (done + next) + rest
  {
  }

  lemma RunTokensCases(b: byte, r: nat)
    requires 0 < r <= MAX_RUN
    ensures r >= MIN_RUN || b == MARKER ==> RunTokens(b, r) == [Run(r as byte, b)]
    ensures r < MIN_RUN && b != MARKER ==> RunTokens(b, r) == Literals(b, r)
  {
  }

  /** A buffer large enough holds the packed form. */
  lemma RoomForAll(orig: seq<byte>, src: seq<byte>, cap: nat)
    requires |Pack(src)| <= cap <= |orig|
    ensures Overwrite(orig, Clip(Tokens(src), cap))[..|Pack(src)|] == Pack(src)
  {
    ClipWhole(Tokens(src), cap);
  }

  /** The reader's next step at index `i`. */
  lemma NextRead(src: seq<byte>, i: nat)
    requires i < |src|
    ensures src[i] == MARKER && i + 2 >= |src| ==> !Accepts(src[i..]) && Decoded(src[i..]) == []
    ensures src[i] == MARKER && i + 2 < |src| ==>
              && Accepts(src[i..]) == Accepts(src[i + 3..])
              && Decoded(src[i..]) == Repeat(src[i + 2], src[i + 1] as int) + Decoded(src[i + 3..])
    ensures src[i] != MARKER ==>
              Accepts(src[i..]) == Accepts(src[i + 1..]) && Decoded(src[i..]) == [src[i]] + Decoded(src[i + 1..])
  {
    var rest := src[i..];
    assert rest[1..] == src[i + 1..];
    if i + 2 < |src| {
      assert rest[3..] == src[i + 3..];
    }
  }

  lemma NothingRead(src: seq<byte>, orig: seq<byte>, cap: nat)
    ensures Decoded(src) == [] + Decoded(src[0..]) && Accepts(src[0..]) == Accepts(src)
    ensures Decoded([]) == [] && Accepts([]) && Overwrite(orig, Take([], cap)) == orig
  {
    assert src[0..] == src;
  }

  /** One more decoded byte is stored when there is room and dropped otherwise. */
  lemma StoreByte(orig: seq<byte>, before: seq<byte>, after: seq<byte>, dec: seq<byte>, v: byte, cap: nat)
    requires cap <= |orig| && before == Overwrite(orig, Take(dec, cap))
    requires after == if |dec| < cap then before[|dec| := v] else before
    ensures after == Overwrite(orig, Take(dec + [v], cap))
  {
  }

  /** dl_unpack_rle: 0 for a broken stream, else the decoded length whatever the buffer is; the
      buffer receives the decoded bytes as far as they fit, for a broken stream those before the break. */
  method UnpackRle(src: seq<byte>, out: array?<byte>, outCap: nat) returns (written: nat)
    requires out != null ==> outCap <= out.Length
    modifies out
    ensures written == if Accepts(src) then |Decoded(src)| else 0
    ensures out != null ==> out[..] == Overwrite(old(out[..]), Take(Decoded(src), outCap))
  {
    hide Accepts, Decoded, Overwrite, Take;
    var i := 0;
    written := 0;
    ghost var dec: seq<byte> := [];
    ghost var orig := if out != null then out[..] else [];
    NothingRead(src, orig, outCap);
    while i < |src|
      invariant i <= |src|
      invariant Accepts(src) == Accepts(src[i..])
      invariant Decoded(src) == dec + Decoded(src[i..])
      invariant written == |dec|
      invariant out != null ==> out[..] == Overwrite(orig, Take(dec, outCap))
    {
      var b := src[i];
      NextRead(src, i);
      if b == MARKER {
        if i + 2 >= |src| {
          assert Decoded(src) == dec;
          return 0;
        }
        var count, val := src[i + 1], src[i + 2];
        ghost var dec0 := dec;
        var j := 0;
        while j < count as int
          invariant j <= count as int
          invariant dec == dec0 + Repeat(val, j)
          invariant written == |dec|
          invariant out != null ==> out[..] == Overwrite(orig, Take(dec, outCap))
        {
          ghost var before := if out != null then out[..] else [];
          if out != null && written < outCap {
            out[written] := val;
          }
          if out != null {
            StoreByte(orig, before, out[..], dec, val, outCap);
          }
          dec := dec + [val];
          written := written + 1;
          j := j + 1;
        }
        i := i + 3;
      } else {
        ghost var before := if out != null then out[..] else [];
        if out != null && written < outCap {
          out[written] := b;
        }
        if out != null {
          StoreByte(orig, before, out[..], dec, b, outCap);
        }
        dec := dec + [b];
        written := written + 1;
        i := i + 1;
      }
    }
    assert src[i..] == [] && Decoded(src) == dec;
  }
}
