/** Octets as the C core sees them. */
module Octets {
  newtype byte = x: int | 0 <= x < 256

  /** `n` copies of `b`. */
  function Repeat(b: byte, n: nat): (r: seq<byte>)
    ensures |r| == n
  {
    seq(n, _ => b)
  }

  /** The first `k` elements of `s`, or all of it when it is shorter. */
  function Take<T>(s: seq<T>, k: nat): (r: seq<T>)
    ensures |r| <= k
  {
    if |s| <= k then s else s[..k]
  }

  /** `orig` with its first `|p|` places replaced by `p`: what a buffer holds after `p` was stored. */
  function Overwrite<T>(orig: seq<T>, p: seq<T>): (r: seq<T>)
    requires |p| <= |orig|
  {
    p + orig[|p|..]
  }
}

/** The run-length stream of deltaffi.c: a greedy packer and a strict reader. */
module RunLength {
  import opened Octets

  const MARKER: byte := 0xFF
  const MAX_RUN: nat := 255
  const MIN_RUN: nat := 4

  /** One unit of a packed stream. */
  datatype Token = Literal(b: byte) | Run(count: byte, b: byte)

  function Encode(t: Token): seq<byte> {
    match t
    case Literal(b) => [b]
    case Run(n, b) => [MARKER, n, b]
  }

  function Expand(t: Token): seq<byte> {
    match t
    case Literal(b) => [b]
    case Run(n, b) => Repeat(b, n as int)
  }

  function EncodeAll(ts: seq<Token>): seq<byte> {
    if ts == [] then [] else Encode(ts[0]) + EncodeAll(ts[1..])
  }

  function ExpandAll(ts: seq<Token>): seq<byte> {
    if ts == [] then [] else Expand(ts[0]) + ExpandAll(ts[1..])
  }

  /** The run scan: how far `x` goes on repeating its first byte, at most 255 places. */
  function RunFrom(x: seq<byte>, k: nat): (r: nat)
    requires 0 < k <= |x| && k <= MAX_RUN
    ensures k <= r <= |x| && r <= MAX_RUN
    decreases |x| - k
  {
    if k < |x| && k < MAX_RUN && x[k] == x[0] then RunFrom(x, k + 1) else k
  }

  function Literals(b: byte, n: nat): (ts: seq<Token>)
    ensures |ts| == n
  {
    seq(n, _ => Literal(b))
  }

  /** The tokens the greedy packer emits for a first run of `r` bytes `b`. */
  function RunTokens(b: byte, r: nat): seq<Token>
    requires 0 < r <= MAX_RUN
  {
    if r >= MIN_RUN || b == MARKER then [Run(r as byte, b)] else Literals(b, r)
  }

  function Tokens(x: seq<byte>): seq<Token> {
    if x == [] then [] else
    var r := RunFrom(x, 1);
    RunTokens(x[0], r) + Tokens(x[r..])
  }

  function Pack(x: seq<byte>): seq<byte> {
    EncodeAll(Tokens(x))
  }

  /** The strict reader takes a stream unless a marker lacks its count or its byte. */
  predicate Accepts(s: seq<byte>) {
    if s == [] then true
    else if s[0] == MARKER then |s| >= 3 && Accepts(s[3..])
    else Accepts(s[1..])
  }

  /** The bytes the reader produces, up to the end of the stream or to the first broken triple. */
  function Decoded(s: seq<byte>): seq<byte> {
    if s == [] then []
    else if s[0] == MARKER then
      if |s| < 3 then [] else Repeat(s[2], s[1] as int) + Decoded(s[3..])
    else [s[0]] + Decoded(s[1..])
  }

  // ----- sequences of tokens

  lemma EncodeAllConcat(a: seq<Token>, b: seq<Token>)
    ensures EncodeAll(a + b) == EncodeAll(a) + EncodeAll(b)
  {
    if a == [] {
      assert a + b == b;
    } else {
      assert (a + b)[1..] == a[1..] + b;
      EncodeAllConcat(a[1..], b);
    }
  }

  lemma ExpandAllConcat(a: seq<Token>, b: seq<Token>)
    ensures ExpandAll(a + b) == ExpandAll(a) + ExpandAll(b)
  {
    if a == [] {
      assert a + b == b;
    } else {
      assert (a + b)[1..] == a[1..] + b;
      ExpandAllConcat(a[1..], b);
    }
  }

  lemma LiteralsFacts(b: byte, n: nat)
    ensures EncodeAll(Literals(b, n)) == Repeat(b, n) == ExpandAll(Literals(b, n))
  {
    if n > 0 {
      assert Literals(b, n)[1..] == Literals(b, n - 1);
      LiteralsFacts(b, n - 1);
      assert Repeat(b, n) == [b] + Repeat(b, n - 1);
    }
  }

  // ----- the reader inverts the packer

  /** The scanned run really is one run. */
  lemma RunFromIsRun(x: seq<byte>, k: nat)
    requires 0 < k <= |x| && k <= MAX_RUN
    requires forall j :: 0 <= j < k ==> x[j] == x[0]
    ensures x[..RunFrom(x, k)] == Repeat(x[0], RunFrom(x, k))
    decreases |x| - k
  {
    if k < |x| && k < MAX_RUN && x[k] == x[0] {
      RunFromIsRun(x, k + 1);
    }
  }

  lemma ExpandRunTokens(b: byte, r: nat)
    requires 0 < r <= MAX_RUN
    ensures ExpandAll(RunTokens(b, r)) == Repeat(b, r)
  {
    LiteralsFacts(b, r);
    assert RunTokens(b, r) == [Run(r as byte, b)] ==> RunTokens(b, r)[1..] == [];
  }

  /** The greedy tokens stand for exactly the input. */
  lemma {:induction false} TokensExpand(x: seq<byte>)
    ensures ExpandAll(Tokens(x)) == x
  {
    if x != [] {
      var r := RunFrom(x, 1);
      assert Tokens(x) == RunTokens(x[0], r) + Tokens(x[r..]);
      assert x == x[..r] + x[r..];
      hide *;
      RunFromIsRun(x, 1);
      ExpandRunTokens(x[0], r);
      TokensExpand(x[r..]);
      ExpandAllConcat(RunTokens(x[0], r), Tokens(x[r..]));
    }
  }

  predicate Readable(ts: seq<Token>) {
    forall t :: t in ts && t.Literal? ==> t.b != MARKER
  }

  lemma {:induction false} TokensReadable(x: seq<byte>)
    ensures Readable(Tokens(x))
  {
    if x != [] {
      TokensReadable(x[RunFrom(x, 1)..]);
    }
  }

  lemma {:induction false} ReaderInvertsEncode(ts: seq<Token>)
    requires Readable(ts)
    ensures Accepts(EncodeAll(ts)) && Decoded(EncodeAll(ts)) == ExpandAll(ts)
  {
    if ts != [] {
      var s, e := EncodeAll(ts), Encode(ts[0]);
      ReaderInvertsEncode(ts[1..]);
      assert ts[0] in ts;
      assert s[|e|..] == EncodeAll(ts[1..]);
    }
  }

  /** Unpacking a packed string gives the string back, whatever it holds. */
  lemma RoundTrip(x: seq<byte>)
    ensures Accepts(Pack(x)) && Decoded(Pack(x)) == x
  {
    TokensReadable(x);
    ReaderInvertsEncode(Tokens(x));
    TokensExpand(x);
  }

  /** What the reader makes of the front of a stream: a byte other than 0xFF is itself, a triple is its count
      of its byte, and a marker without both is broken. */
  lemma ReaderPeels(x: byte, n: byte, b: byte, s: seq<byte>)
    ensures Accepts([]) && Decoded([]) == []
    ensures x != 0xFF ==> (Accepts([x] + s) <==> Accepts(s)) && Decoded([x] + s) == [x] + Decoded(s)
    ensures (Accepts([0xFF, n, b] + s) <==> Accepts(s)) && Decoded([0xFF, n, b] + s) == Repeat(b, n as int) + Decoded(s)
    ensures !Accepts([0xFF]) && !Accepts([0xFF, n]) && Decoded([0xFF]) == Decoded([0xFF, n]) == []
  {
    assert ([x] + s)[1..] == s && ([0xFF, n, b] + s)[3..] == s;
  }

  // ----- the packer is length-optimal

  /** What a maximal run of `m` bytes `b` costs. */
  function RunCost(b: byte, m: nat): nat {
    if b == MARKER then 3 * ((m + 254) / 255)
    else 3 * (m / 255) + (if m % 255 < 3 then m % 255 else 3)
  }

  lemma RunFromRepeat(b: byte, m: nat, z: seq<byte>, k: nat)
    requires 0 < k <= m && k <= MAX_RUN
    requires z != [] ==> z[0] != b
    ensures RunFrom(Repeat(b, m) + z, k) == if m <= MAX_RUN then m else MAX_RUN
    decreases m - k
  {
    if k < m && k < MAX_RUN {
      RunFromRepeat(b, m, z, k + 1);
    }
  }

  lemma RunTokensCost(b: byte, r: nat)
    requires 0 < r <= MAX_RUN
    ensures |EncodeAll(RunTokens(b, r))| == if r >= MIN_RUN || b == MARKER then 3 else r
  {
    LiteralsFacts(b, r);
    assert RunTokens(b, r) == [Run(r as byte, b)] ==> RunTokens(b, r)[1..] == [];
  }

  lemma RunCostStep(b: byte, m: nat)
    requires m > 0
    ensures m > MAX_RUN ==> RunCost(b, m) == 3 + RunCost(b, m - MAX_RUN)
    ensures m <= MAX_RUN ==> RunCost(b, m) == if m >= MIN_RUN || b == MARKER then 3 else m
    ensures RunCost(b, 0) == 0
  {
    if m > MAX_RUN {
      assert m / 255 == (m - 255) / 255 + 1 && m % 255 == (m - 255) % 255;
      assert (m + 254) / 255 == (m - 255 + 254) / 255 + 1;
    }
  }

  /** The length of the packed form is a sum over maximal runs: no token spans two of them. */
  lemma {:induction false} PackLength(b: byte, m: nat, z: seq<byte>)
    requires z != [] ==> z[0] != b
    ensures |Pack(Repeat(b, m) + z)| == RunCost(b, m) + |Pack(z)|
    decreases m
  {
    var x := Repeat(b, m) + z;
    if m == 0 {
      assert x == z;
    } else {
      var r := if m <= MAX_RUN then m else MAX_RUN;
      RunFromRepeat(b, m, z, 1);
      assert x[r..] == Repeat(b, m - r) + z;
      RunCostStep(b, m);
      assert Tokens(x) == RunTokens(b, r) + Tokens(x[r..]);
      hide RunFrom, RunTokens, Tokens, RunCost, EncodeAll;
      EncodeAllConcat(RunTokens(b, r), Tokens(x[r..]));
      RunTokensCost(b, r);
      PackLength(b, m - r, z);
    }
  }

  /** How many bytes `b` open `y`. */
  function Lead(b: byte, y: seq<byte>): (m: nat)
    ensures m <= |y| && (m < |y| ==> y[m] != b)
    ensures y[..m] == Repeat(b, m)
  {
    if y == [] || y[0] != b then 0
    else
      var m := Lead(b, y[1..]);
      assert y[..m + 1] == [y[0]] + y[1..][..m];
      m + 1
  }

  lemma RunCostGrowth(b: byte, m: nat, c: nat)
    requires c <= MAX_RUN
    ensures RunCost(b, m + c) <= RunCost(b, m) + 3
    ensures b != MARKER ==> RunCost(b, m + 1) <= RunCost(b, m) + 1
  {
    assert (m + 1) / 255 == m / 255 || ((m + 1) / 255 == m / 255 + 1 && m % 255 == 254);
  }

  lemma RepeatJoins(b: byte, c: nat, m: nat)
    ensures Repeat(b, c) + Repeat(b, m) == Repeat(b, m + c)
  {
  }

  /** Putting `c` bytes `b` before `y` costs no more than one triple, or one literal. */
  lemma PrependCost(b: byte, c: nat, y: seq<byte>)
    requires c <= MAX_RUN
    ensures |Pack(Repeat(b, c) + y)| <= |Pack(y)| + 3
    ensures c == 1 && b != MARKER ==> |Pack(Repeat(b, c) + y)| <= |Pack(y)| + 1
  {
    hide Pack, Lead, RunCost;
    var m := Lead(b, y);
    var z := y[m..];
    assert y == Repeat(b, m) + z;
    RepeatJoins(b, c, m);
    assert Repeat(b, c) + (Repeat(b, m) + z) == (Repeat(b, c) + Repeat(b, m)) + z;
    PackLength(b, m, z);
    PackLength(b, m + c, z);
    RunCostGrowth(b, m, c);
  }

  /** No stream the reader accepts says the same in fewer bytes than the packer does. */
  lemma {:induction false} PackIsOptimal(s: seq<byte>)
    requires Accepts(s)
    ensures |Pack(Decoded(s))| <= |s|
  {
    if s != [] {
      if s[0] == MARKER {
        PackIsOptimal(s[3..]);
        PrependCost(s[2], s[1] as int, Decoded(s[3..]));
      } else {
        PackIsOptimal(s[1..]);
        PrependCost(s[0], 1, Decoded(s[1..]));
        assert [s[0]] == Repeat(s[0], 1);
      }
    }
  }

  // ----- the bytes of the packed form

  lemma TokensPeel(b: byte, m: nat, z: seq<byte>)
    requires m > 0 && (z != [] ==> z[0] != b)
    ensures var r := if m <= MAX_RUN then m else MAX_RUN;
            Tokens(Repeat(b, m) + z) == RunTokens(b, r) + Tokens(Repeat(b, m - r) + z)
  {
    var x, r := Repeat(b, m) + z, if m <= MAX_RUN then m else MAX_RUN;
    RunFromRepeat(b, m, z, 1);
    assert x[r..] == Repeat(b, m - r) + z;
  }

  lemma RunTokensBytes(b: byte, r: nat)
    requires 0 < r <= MAX_RUN
    ensures EncodeAll(RunTokens(b, r)) == if r >= 4 || b == 0xFF then [0xFF, r as byte, b] else Repeat(b, r)
  {
    LiteralsFacts(b, r);
    assert RunTokens(b, r) == [Run(r as byte, b)] ==> RunTokens(b, r)[1..] == [];
  }

  /** What the packer writes for the first run of a string: a triple of 0xFF, count and byte for each 255
      bytes of it and for a rest of at least four, or of 0xFF; a shorter rest as it is. */
  lemma PackPeels(b: byte, m: nat, z: seq<byte>)
    requires m > 0 && (z != [] ==> z[0] != b)
    ensures Pack(Repeat(b, m) + z) ==
            if m > 255 then [0xFF, 255, b] + Pack(Repeat(b, m - 255) + z)
            else if m >= 4 || b == 0xFF then [0xFF, m as byte, b] + Pack(z)
            else Repeat(b, m) + Pack(z)
  {
    hide Tokens, RunTokens, EncodeAll;
    TokensPeel(b, m, z);
    var r := if m <= MAX_RUN then m else MAX_RUN;
    RunTokensBytes(b, r);
    EncodeAllConcat(RunTokens(b, r), Tokens(Repeat(b, m - r) + z));
    assert Repeat(b, 0) + z == z;
  }

  /** No byte 0xFF, and no four equal bytes in a row. */
  predicate Plain(x: seq<byte>) {
    && (forall i :: 0 <= i < |x| ==> x[i] != 0xFF)
    && (forall i :: 0 <= i < |x| - 3 ==> !(x[i] == x[i + 1] && x[i + 1] == x[i + 2] && x[i + 2] == x[i + 3]))
  }

  /** Such a string packs to itself. */
  lemma {:induction false} PlainPacksToItself(x: seq<byte>)
    requires Plain(x)
    ensures Pack(x) == x
  {
    if x != [] {
      var m := Lead(x[0], x);
      var z := x[m..];
      assert x[..m] == Repeat(x[0], m) && x == Repeat(x[0], m) + z;
      PlainLead(x, m);
      PlainRest(x, m);
      hide Pack, Lead, Plain;
      PackPeels(x[0], m, z);
      PlainPacksToItself(z);
    }
  }

  predicate FourEqual(x: seq<byte>) {
    |x| >= 4 && x[0] == x[1] && x[1] == x[2] && x[2] == x[3]
  }

  lemma PlainStart(x: seq<byte>)
    requires Plain(x) && x != []
    ensures !FourEqual(x) && x[0] != 0xFF
  {
    assert |x| >= 4 ==> !(x[0] == x[0 + 1] && x[0 + 1] == x[0 + 2] && x[0 + 2] == x[0 + 3]);
  }

  lemma RepeatStart(x: seq<byte>, m: nat)
    requires x != [] && m <= |x| && x[..m] == Repeat(x[0], m)
    ensures m >= 4 ==> FourEqual(x)
  {
    assert forall i :: 0 <= i < m ==> x[i] == x[..m][i];
  }

  lemma PlainLead(x: seq<byte>, m: nat)
    requires Plain(x) && x != [] && m <= |x| && x[..m] == Repeat(x[0], m) && (m < |x| ==> x[m] != x[0])
    ensures 0 < m < 4 && x[0] != 0xFF
  {
    hide Plain;
    PlainStart(x);
    RepeatStart(x, m);
  }

  lemma PlainRest(x: seq<byte>, m: nat)
    requires Plain(x) && m <= |x|
    ensures Plain(x[m..])
  {
    var z := x[m..];
    forall i | 0 <= i < |z| - 3 ensures !(z[i] == z[i + 1] && z[i + 1] == z[i + 2] && z[i + 2] == z[i + 3]) {
      assert !(x[i + m] == x[i + m + 1] && x[i + m + 1] == x[i + m + 2] && x[i + m + 2] == x[i + m + 3]);
    }
  }

  // ----- short output buffers

  /** The encoding of the longest prefix of whole tokens that fits in `cap` bytes. */
  function Clip(ts: seq<Token>, cap: nat): (r: seq<byte>)
    ensures |r| <= cap
  {
    if ts == [] || |Encode(ts[0])| > cap then []
    else Encode(ts[0]) + Clip(ts[1..], cap - |Encode(ts[0])|)
  }

  /** `Clip` is whole tokens, and one token more would not have fitted. */
  lemma {:induction false} ClipIsLongest(ts: seq<Token>, cap: nat)
    ensures exists k :: 0 <= k <= |ts| && Clip(ts, cap) == EncodeAll(ts[..k])
                        && (k < |ts| ==> |EncodeAll(ts[..k + 1])| > cap)
  {
    if ts == [] || |Encode(ts[0])| > cap {
      assert Clip(ts, cap) == EncodeAll(ts[..0]);
      if ts != [] {
        assert ts[..1][1..] == [];
      }
    } else {
      var rest := cap - |Encode(ts[0])|;
      ClipIsLongest(ts[1..], rest);
      var k :| 0 <= k <= |ts[1..]| && Clip(ts[1..], rest) == EncodeAll(ts[1..][..k])
               && (k < |ts[1..]| ==> |EncodeAll(ts[1..][..k + 1])| > rest);
      assert ts[..k + 1][1..] == ts[1..][..k];
      if k < |ts[1..]| {
        assert ts[..k + 2][1..] == ts[1..][..k + 1];
      }
      assert Clip(ts, cap) == EncodeAll(ts[..k + 1]);
    }
  }

  lemma ClipWhole(ts: seq<Token>, cap: nat)
    requires |EncodeAll(ts)| <= cap
    ensures Clip(ts, cap) == EncodeAll(ts)
  {
  }

  /** One more token: it is stored when it fits after everything before it, and dropped otherwise. */
  lemma {:induction false} ClipSnoc(ts: seq<Token>, t: Token, cap: nat)
    ensures Clip(ts + [t], cap)
            == if |EncodeAll(ts)| + |Encode(t)| <= cap then EncodeAll(ts) + Encode(t) else Clip(ts, cap)
  {
    if ts == [] {
      assert ([] + [t])[1..] == [];
    } else {
      assert (ts + [t])[1..] == ts[1..] + [t];
      if |Encode(ts[0])| <= cap {
        ClipSnoc(ts[1..], t, cap - |Encode(ts[0])|);
      }
    }
  }
}
