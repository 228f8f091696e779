/**
 NVR: the bit-tagged run-length varint coder for columns.

 The specification is `Encode`: symbols are merged into tokens (`Tokens`), each
 token is written as a tagged shortest varint (`TokenBytes`).  The measuring,
 writing and parsing loops are proved against it, and the decoder is proved to
 accept exactly the image of `Encode`.
 */
module Nvr {
  import opened Prelude

  const MAX_SECTION_ROWS: nat := 65_536

  datatype Symbol = Null | Value(value: U64)
  datatype Mode = Values | Timestamps
  datatype Plan = Plan(byteLen: nat, factCount: nat, nullCount: nat)

  datatype Token = Lit(payload: nat) | ZeroRun(payload: nat) | NullRun(payload: nat) {
    predicate RepeatsRun(previous: Token) {
      (ZeroRun? && previous.ZeroRun?) || (NullRun? && previous.NullRun?)
    }
    predicate Valid() { 1 <= payload <= U64_MAX }
  }

  // ---------------------------------------------------------------- tokens

  function Single(x: Symbol): Token {
    match x
    case Null => NullRun(1)
    case Value(v) => if v == 0 then ZeroRun(1) else Lit(v)
  }

  function Push(ts: seq<Token>, x: Symbol): seq<Token> {
    var next := Single(x);
    if |ts| > 0 && next.RepeatsRun(ts[|ts| - 1])
    then ts[..|ts| - 1] + [Longer(ts[|ts| - 1])]
    else ts + [next]
  }

  function Longer(t: Token): Token {
    match t
    case Lit(n) => t
    case ZeroRun(n) => ZeroRun(n + 1)
    case NullRun(n) => NullRun(n + 1)
  }

  /** Maximal-run tokenisation of a symbol sequence. */
  function Tokens(s: seq<Symbol>): seq<Token> {
    if s == [] then [] else Push(Tokens(s[..|s| - 1]), s[|s| - 1])
  }

  function TokenSymbols(t: Token): seq<Symbol> {
    match t
    case Lit(v) => if v <= U64_MAX then [Value(v)] else []
    case ZeroRun(n) => Run(Value(0), n)
    case NullRun(n) => Run(Null, n)
  }

  function Expand(ts: seq<Token>): seq<Symbol> {
    if ts == [] then [] else Expand(ts[..|ts| - 1]) + TokenSymbols(ts[|ts| - 1])
  }

  /** Positive payloads and no two adjacent runs of the same kind. */
  predicate Canonical(ts: seq<Token>) {
    && (forall i | 0 <= i < |ts| :: ts[i].Valid())
    && (forall i | 0 < i < |ts| :: !ts[i].RepeatsRun(ts[i - 1]))
  }

  function NullCount(s: seq<Symbol>): nat {
    if s == [] then 0 else NullCount(s[..|s| - 1]) + (if s[|s| - 1].Null? then 1 else 0)
  }

  lemma {:induction false} NullCountAppend(a: seq<Symbol>, b: seq<Symbol>)
    ensures NullCount(a + b) == NullCount(a) + NullCount(b)
  {
    if b == [] {
      assert a + b == a;
    } else {
      assert (a + b)[..|a + b| - 1] == a + b[..|b| - 1];
      NullCountAppend(a, b[..|b| - 1]);
    }
  }

  lemma {:induction false} NullCountBound(s: seq<Symbol>)
    ensures NullCount(s) <= |s|
    ensures NullCount(s) == 0 <==> forall i | 0 <= i < |s| :: !s[i].Null?
  {
    if s != [] {
      var p := s[..|s| - 1];
      NullCountBound(p);
      assert forall i | 0 <= i < |p| :: s[i] == p[i];
    }
  }

  lemma TokensSnoc(s: seq<Symbol>, x: Symbol)
    ensures Tokens(s + [x]) == Push(Tokens(s), x)
  {
    hide Push;
    assert (s + [x])[..|s|] == s;
  }

  lemma ExpandSnoc(ts: seq<Token>, t: Token)
    ensures Expand(ts + [t]) == Expand(ts) + TokenSymbols(t)
  {
    hide TokenSymbols;
    assert (ts + [t])[..|ts|] == ts;
  }

  lemma LongerSymbols(t: Token, x: Symbol)
    requires Single(x).RepeatsRun(t)
    ensures TokenSymbols(Longer(t)) == TokenSymbols(t) + [x]
  {
  }

  lemma ExpandPush(ts: seq<Token>, x: Symbol)
    ensures Expand(Push(ts, x)) == Expand(ts) + [x]
  {
    hide Expand, TokenSymbols, Longer, Single;
    if |ts| > 0 && Single(x).RepeatsRun(ts[|ts| - 1]) {
      var init, last := ts[..|ts| - 1], ts[|ts| - 1];
      ExpandSnoc(init, Longer(last));
      ExpandSnoc(init, last);
      assert init + [last] == ts;
      LongerSymbols(last, x);
      assert (Expand(init) + TokenSymbols(last)) + [x] == Expand(init) + (TokenSymbols(last) + [x]);
    } else {
      ExpandSnoc(ts, Single(x));
      assert TokenSymbols(Single(x)) == [x] by { SingleSymbols(x); }
    }
  }

  lemma SingleSymbols(x: Symbol)
    ensures TokenSymbols(Single(x)) == [x]
  {
  }

  // Every run is at most as long as the symbols it came from.
  predicate RunsWithin(ts: seq<Token>, n: nat) {
    forall i | 0 <= i < |ts| :: !ts[i].Lit? ==> ts[i].payload <= n
  }

  lemma PushCanonical(ts: seq<Token>, x: Symbol, n: nat)
    requires Canonical(ts) && RunsWithin(ts, n) && n < MAX_SECTION_ROWS
    ensures Canonical(Push(ts, x)) && RunsWithin(Push(ts, x), n + 1) && Push(ts, x) != []
  {
    var us := Push(ts, x);
    assert forall i | 0 <= i < |us| - 1 :: us[i] == ts[i];
  }

  /** Merging loses nothing and always yields canonical tokens. */
  lemma {:induction false} ExpandTokens(s: seq<Symbol>)
    requires |s| <= MAX_SECTION_ROWS
    ensures Expand(Tokens(s)) == s
    ensures Canonical(Tokens(s)) && RunsWithin(Tokens(s), |s|)
    ensures s != [] ==> Tokens(s) != []
  {
    hide *;
    if s == [] {
      NoTokens();
    } else {
      var p, x := s[..|s| - 1], s[|s| - 1];
      ExpandTokens(p);
      assert s == p + [x];
      TokensSnoc(p, x);
      ExpandPush(Tokens(p), x);
      PushCanonical(Tokens(p), x, |p|);
    }
  }

  lemma NoTokens()
    ensures Tokens([]) == [] && Expand([]) == [] && Canonical([]) && RunsWithin([], 0)
  {
  }

  function Run(x: Symbol, n: nat): seq<Symbol> { seq(n, _ => x) }

  lemma TokensSnocRun(s: seq<Symbol>, x: Symbol, n: nat)
    requires n > 0
    ensures Tokens(s + Run(x, n)) == Push(Tokens(s + Run(x, n - 1)), x)
  {
    assert s + Run(x, n) == (s + Run(x, n - 1)) + [x];
    hide *;
    TokensSnoc(s + Run(x, n - 1), x);
  }

  lemma {:induction false} TokensOfRun(s: seq<Symbol>, x: Symbol, n: nat)
    requires x == Value(0) || x == Null
    requires Tokens(s) == [] || !Single(x).RepeatsRun(Tokens(s)[|Tokens(s)| - 1])
    requires n > 0
    ensures Tokens(s + Run(x, n)) == Tokens(s) + [if x.Null? then NullRun(n) else ZeroRun(n)]
  {
    hide Tokens;
    TokensSnocRun(s, x, n);
    if n == 1 {
      assert s + Run(x, 0) == s;
    } else {
      TokensOfRun(s, x, n - 1);
    }
  }

  /** Canonical token sequences are exactly the tokenisations. */
  lemma {:induction false} TokensExpand(ts: seq<Token>)
    requires Canonical(ts)
    ensures Tokens(Expand(ts)) == ts
  {
    if ts != [] {
      var init, last := ts[..|ts| - 1], ts[|ts| - 1];
      assert ts == init + [last];
      assert Canonical(init) by {
        assert forall i | 0 <= i < |init| :: init[i] == ts[i];
      }
      TokensExpand(init);
      var s := Expand(init);
      assert Expand(ts) == s + TokenSymbols(last);
      assert init == [] || !last.RepeatsRun(init[|init| - 1]);
      hide Expand, Tokens, Canonical;
      match last {
        case Lit(v) => TokensSnoc(s, Value(v));
        case ZeroRun(n) => TokensOfRun(s, Value(0), n);
        case NullRun(n) => TokensOfRun(s, Null, n);
      }
    }
  }

  // ----------------------------------------------------------------- bytes

  /** Continuation bytes: seven bits each, least significant first, shortest form. */
  function Cont(n: nat): seq<Byte>
    requires n > 0
  {
    if n < 128 then [n] else [n % 128 + 128] + Cont(n / 128)
  }

  function TokenBytes(t: Token): seq<Byte> {
    match t
    case Lit(n) => Tagged(0x00 + n % 64, 64, n / 64)
    case ZeroRun(n) => Tagged(0x80 + n % 32, 32, n / 32)
    case NullRun(n) => Tagged(0xC0 + n % 16, 16, n / 16)
  }

  // The first byte, with its continuation bit when payload remains, then the rest.
  function Tagged(low: Byte, continuation: nat, rest: nat): seq<Byte>
    requires low + continuation <= U8_MAX
  {
    if rest == 0 then [low] else [low + continuation] + Cont(rest)
  }

  function TokensBytes(ts: seq<Token>): seq<Byte> {
    if ts == [] then [] else TokensBytes(ts[..|ts| - 1]) + TokenBytes(ts[|ts| - 1])
  }

  /** The byte stream of a symbol sequence. */
  function Encode(s: seq<Symbol>): seq<Byte> { TokensBytes(Tokens(s)) }

  function Pow128(k: nat): nat { if k == 0 then 1 else 128 * Pow128(k - 1) }

  // The value of continuation chunks read so far.
  function ChunkValue(bs: seq<Byte>): nat {
    if bs == [] then 0 else bs[0] % 128 + 128 * ChunkValue(bs[1..])
  }

  predicate AllMore(bs: seq<Byte>) { forall i | 0 <= i < |bs| :: bs[i] >= 128 }

  lemma MulAssoc(a: nat, b: nat, c: nat)
    ensures (a * b) * c == a * (b * c)
  {
  }

  lemma ContStep(x: nat, m: nat, b: Byte)
    requires m > 0 && b >= 128 && x == b % 128 + 128 * m
    ensures Cont(x) == [b] + Cont(m)
  {
    assert x / 128 == m && x % 128 == b % 128;
  }

  lemma {:induction false} ContAfterChunks(bs: seq<Byte>, n: nat)
    requires AllMore(bs) && n > 0
    ensures ChunkValue(bs) + Pow128(|bs|) * n > 0
    ensures Cont(ChunkValue(bs) + Pow128(|bs|) * n) == bs + Cont(n)
  {
    if bs == [] {
      assert bs + Cont(n) == Cont(n);
    } else {
      var tail := bs[1..];
      ContAfterChunks(tail, n);
      var m := ChunkValue(tail) + Pow128(|tail|) * n;
      var x := ChunkValue(bs) + Pow128(|bs|) * n;
      assert x == bs[0] % 128 + 128 * m by {
        MulAssoc(128, Pow128(|tail|), n);
      }
      hide ChunkValue, Pow128;
      ContStep(x, m, bs[0]);
      assert bs + Cont(n) == [bs[0]] + (tail + Cont(n));
    }
  }

  lemma {:induction false} ChunkValueSnoc(bs: seq<Byte>, b: Byte)
    ensures ChunkValue(bs + [b]) == ChunkValue(bs) + Pow128(|bs|) * (b % 128)
  {
    if bs == [] {
      assert [b][1..] == [];
    } else {
      var tail := bs[1..];
      assert (bs + [b])[1..] == tail + [b];
      ChunkValueSnoc(tail, b);
      MulAssoc(128, Pow128(|tail|), b % 128);
    }
  }

  lemma {:induction false} ChunkValueBound(bs: seq<Byte>)
    ensures ChunkValue(bs) < Pow128(|bs|)
  {
    if bs != [] { ChunkValueBound(bs[1..]); }
  }

  lemma {:induction false} ContShape(n: nat)
    requires n > 0
    ensures |Cont(n)| > 0
    ensures AllMore(Cont(n)[..|Cont(n)| - 1])
    ensures 0 < Cont(n)[|Cont(n)| - 1] < 128
    ensures n >= Pow128(|Cont(n)| - 1)
    ensures ChunkValue(Cont(n)) == n
  {
    if n >= 128 {
      ContShape(n / 128);
      assert Cont(n)[1..] == Cont(n / 128);
    } else {
      assert Cont(n)[1..] == [];
    }
  }

  /** Continuations are self-delimiting. */
  lemma {:induction false} ContPrefixFree(a: nat, b: nat, x: seq<Byte>, y: seq<Byte>)
    requires a > 0 && b > 0
    requires Cont(a) + x == Cont(b) + y
    ensures a == b && x == y
  {
    ContShape(a);
    ContShape(b);
    var ca, cb := Cont(a), Cont(b);
    ContNotShorter(ca, cb, x, y);
    ContNotShorter(cb, ca, y, x);
    assert ca == (ca + x)[..|ca|] == cb;
    assert x == (ca + x)[|ca|..] == y;
  }

  lemma NotLastMore(bs: seq<Byte>, k: nat)
    requires k < |bs| - 1 && AllMore(bs[..|bs| - 1])
    ensures bs[k] >= 128
  {
    assert bs[..|bs| - 1][k] == bs[k];
  }

  lemma ContNotShorter(ca: seq<Byte>, cb: seq<Byte>, x: seq<Byte>, y: seq<Byte>)
    requires ca != [] && cb != [] && ca + x == cb + y
    requires ca[|ca| - 1] < 128 && AllMore(cb[..|cb| - 1])
    ensures |cb| <= |ca|
  {
    var k := |ca| - 1;
    assert (ca + x)[k] == ca[k];
    assert k < |cb| ==> (cb + y)[k] == cb[k];
    if k < |cb| - 1 {
      NotLastMore(cb, k);
    }
  }

  lemma FirstByte(t: Token)
    ensures |TokenBytes(t)| > 0
    ensures t.Lit? <==> TokenBytes(t)[0] < 0x80
    ensures t.ZeroRun? <==> 0x80 <= TokenBytes(t)[0] < 0xC0
    ensures t.NullRun? <==> 0xC0 <= TokenBytes(t)[0] < 0xE0
  {
    hide Cont;
  }

  lemma TaggedPrefixFree(la: Byte, lb: Byte, continuation: nat, ra: nat, rb: nat, x: seq<Byte>, y: seq<Byte>)
    requires la + continuation <= U8_MAX && lb + continuation <= U8_MAX
    requires la < lb + continuation && lb < la + continuation
    requires Tagged(la, continuation, ra) + x == Tagged(lb, continuation, rb) + y
    ensures la == lb && ra == rb && x == y
  {
    hide Cont;
    var a, b := Tagged(la, continuation, ra), Tagged(lb, continuation, rb);
    assert (a + x)[0] == a[0] && (b + y)[0] == b[0];
    assert a[1..] + x == (a + x)[1..] == b[1..] + y;
    if ra == 0 {
      assert a[1..] + x == x && b[1..] + y == y;
    } else {
      assert a[1..] == Cont(ra) && b[1..] == Cont(rb);
      ContPrefixFree(ra, rb, x, y);
    }
  }

  /** NVR tokens form a prefix code. */
  lemma TokenPrefixFree(a: Token, b: Token, x: seq<Byte>, y: seq<Byte>)
    requires TokenBytes(a) + x == TokenBytes(b) + y
    ensures a == b && x == y
  {
    FirstByte(a);
    FirstByte(b);
    assert (TokenBytes(a) + x)[0] == TokenBytes(a)[0] && (TokenBytes(b) + y)[0] == TokenBytes(b)[0];
    hide Tagged;
    var m, n := a.payload, b.payload;
    match a {
      case Lit(_) => TaggedPrefixFree(m % 64, n % 64, 64, m / 64, n / 64, x, y);
      case ZeroRun(_) => TaggedPrefixFree(0x80 + m % 32, 0x80 + n % 32, 32, m / 32, n / 32, x, y);
      case NullRun(_) => TaggedPrefixFree(0xC0 + m % 16, 0xC0 + n % 16, 16, m / 16, n / 16, x, y);
    }
  }

  lemma {:induction false} TokensBytesAppend(a: seq<Token>, b: seq<Token>)
    ensures TokensBytes(a + b) == TokensBytes(a) + TokensBytes(b)
  {
    hide TokenBytes;
    if b == [] {
      assert a + b == a;
    } else {
      assert (a + b)[..|a + b| - 1] == a + b[..|b| - 1];
      TokensBytesAppend(a, b[..|b| - 1]);
    }
  }

  lemma TokensBytesCons(ts: seq<Token>)
    requires ts != []
    ensures TokensBytes(ts) == TokenBytes(ts[0]) + TokensBytes(ts[1..])
  {
    hide TokenBytes;
    assert ts == [ts[0]] + ts[1..];
    TokensBytesAppend([ts[0]], ts[1..]);
    assert [ts[0]][..0] == [];
    assert TokensBytes([ts[0]]) == TokenBytes(ts[0]);
  }

  /** A parsed prefix of a token stream is a prefix of every parse of that stream. */
  lemma {:induction false} UniqueParse(parsed: seq<Token>, ts: seq<Token>, rest: seq<Byte>)
    requires TokensBytes(ts) == TokensBytes(parsed) + rest
    ensures parsed <= ts && rest == TokensBytes(ts[|parsed|..])
  {
    hide TokenBytes;
    if parsed == [] {
      assert ts[0..] == ts;
    } else {
      TokensBytesCons(parsed);
      var head := TokenBytes(parsed[0]);
      FirstByte(parsed[0]);
      assert ts != [];
      TokensBytesCons(ts);
      assert TokensBytes(parsed) + rest == head + (TokensBytes(parsed[1..]) + rest);
      TokenPrefixFree(ts[0], parsed[0], TokensBytes(ts[1..]), TokensBytes(parsed[1..]) + rest);
      UniqueParse(parsed[1..], ts[1..], rest);
      assert ts[1..][|parsed| - 1..] == ts[|parsed|..];
      assert parsed == [parsed[0]] + parsed[1..];
      assert ts == [ts[0]] + ts[1..];
    }
  }

  /** Distinct symbol sequences have distinct byte streams. */
  lemma EncodeInjective(s: seq<Symbol>, t: seq<Symbol>)
    requires |s| <= MAX_SECTION_ROWS && |t| <= MAX_SECTION_ROWS
    requires Encode(s) == Encode(t)
    ensures s == t
  {
    assert Encode(s) == TokensBytes(Tokens(t)) + [];
    UniqueParse(Tokens(t), Tokens(s), []);
    var extra := Tokens(s)[|Tokens(t)|..];
    if extra != [] {
      TokensBytesCons(extra);
      FirstByte(extra[0]);
      assert false;
    }
    assert Tokens(s) == Tokens(t);
    ExpandTokens(s);
    ExpandTokens(t);
  }
}
