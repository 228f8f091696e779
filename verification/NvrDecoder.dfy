/** The parsing loops of the NVR coder: the decoder accepts exactly the image of `Nvr.Encode`. */
module NvrDecoding {
  import opened Prelude
  import opened Nvr
  import opened NvrEncoding

  function Pow2(k: nat): nat { if k == 0 then 1 else 2 * Pow2(k - 1) }

  // Payload left to the continuation bytes after the first byte of each token kind.
  predicate FirstWidth(bits: nat, m: nat) {
    (bits == 6 && m == 64) || (bits == 5 && m == 32) || (bits == 4 && m == 16)
  }

  lemma {:induction false} ShiftValue(bits: nat, m: nat, k: nat)
    requires FirstWidth(bits, m)
    ensures Pow2(bits + 7 * k) == m * Pow128(k)
  {
    if k == 0 {
      assert Pow2(4) == 16 && Pow2(5) == 32 && Pow2(6) == 64 by { assert Pow2(2) == 4; }
    } else {
      ShiftValue(bits, m, k - 1);
      var s := bits + 7 * (k - 1);
      assert Pow2(s + 2) == 4 * Pow2(s);
      assert Pow2(s + 4) == 16 * Pow2(s);
      assert Pow2(s + 6) == 64 * Pow2(s);
      MulSwap(128, m, Pow128(k - 1));
    }
  }

  lemma MulSwap(a: nat, b: nat, c: nat)
    ensures a * (b * c) == b * (a * c)
  {
  }

  lemma {:induction false} Pow2Split(a: nat, b: nat)
    ensures Pow2(a + b) == Pow2(a) * Pow2(b)
    ensures Pow2(a) > 0
  {
    if a > 0 {
      Pow2Split(a - 1, b);
      MulAssoc(2, Pow2(a - 1), Pow2(b));
    }
  }

  lemma Pow2Of64()
    ensures Pow2(64) == U64_MAX + 1
  {
    assert Pow2(4) == 16;
    Pow2Split(4, 4);
    Pow2Split(8, 8);
    Pow2Split(16, 16);
    Pow2Split(32, 32);
    hide Pow2;
    assert Pow2(8) == 256 && Pow2(16) == 256 * 256;
    assert Pow2(32) == 65_536 * 65_536;
    assert Pow2(64) == 0x1_0000_0000 * 0x1_0000_0000;
  }

  /** A chunk fits above `shift` bits of payload exactly when it is at most `u64::MAX >> shift`. */
  lemma ChunkFits(payload: nat, chunk: nat, shift: nat)
    requires shift < 64 && payload < Pow2(shift)
    ensures Pow2(shift) > 0
    ensures payload + Pow2(shift) * chunk <= U64_MAX <==> chunk <= U64_MAX / Pow2(shift)
  {
    Pow2Split(shift, 64 - shift);
    Pow2Of64();
    Pow2Split(64 - shift, 0);
    hide Pow2;
    FitsBelow(Pow2(shift), Pow2(64 - shift), payload, chunk, U64_MAX);
  }

  lemma FitsBelow(p: nat, q: nat, payload: nat, chunk: nat, maximum: nat)
    requires payload < p && q > 0 && p * q == maximum + 1
    ensures payload + p * chunk <= maximum <==> chunk <= maximum / p
  {
    QuotientOfOneLess(p, q);
    if chunk <= q - 1 {
      MulMono(p, chunk, q - 1);
      assert p * (q - 1) == p * q - p;
    } else {
      MulMono(p, q, chunk);
    }
  }

  lemma QuotientOfOneLess(p: nat, q: nat)
    requires p > 0 && q > 0
    ensures p * q > 0
    ensures (p * q - 1) / p == q - 1
  {
    MulMono(p, 1, q);
    DivisionIs(p * q - 1, p, q - 1, p - 1);
  }

  lemma DivisionIs(x: nat, p: nat, q: nat, r: nat)
    requires p > 0 && r < p && x == p * q + r
    ensures x / p == q
  {
    var d := x / p;
    assert x == p * d + x % p;
    if d < q { MulMono(p, d + 1, q); }
    if d > q { MulMono(p, q + 1, d); }
  }

  lemma MulMono(p: nat, a: nat, b: nat)
    requires a <= b
    ensures p * a <= p * b
  {
  }

  lemma {:induction false} ChunkValuePrefix(bs: seq<Byte>, k: nat)
    requires k <= |bs|
    ensures ChunkValue(bs) >= ChunkValue(bs[..k])
  {
    if k > 0 {
      ChunkValuePrefix(bs[1..], k - 1);
      assert bs[..k][1..] == bs[1..][..k - 1];
    }
  }

  // The shortest varint of `n` starts here.
  predicate Continues(bytes: seq<Byte>, from: nat, n: nat)
    requires from <= |bytes|
  {
    n > 0 && Cont(n) <= bytes[from..]
  }

  lemma ContinuesAt(bytes: seq<Byte>, from: nat, n: nat, k: nat)
    requires from <= |bytes| && Continues(bytes, from, n) && k < |Cont(n)|
    ensures from + k < |bytes| && bytes[from + k] == Cont(n)[k]
  {
    hide Cont;
    assert bytes[from..][k] == Cont(n)[k];
  }

  // Reading state of a continuation: the chunks between `from` and `next` are worth `value`.
  ghost predicate Reading(bytes: seq<Byte>, from: nat, next: nat, more: bool, value: nat) {
    && from <= next <= |bytes|
    && if more then AllMore(bytes[from..next]) && value == ChunkValue(bytes[from..next])
       else from < next && value > 0 && bytes[from..next] == Cont(value)
  }

  lemma MoreAt(bytes: seq<Byte>, from: nat, next: nat, i: nat)
    requires from <= i < next <= |bytes| && AllMore(bytes[from..next])
    ensures bytes[i] >= 128
  {
    assert bytes[from..next][i - from] == bytes[i];
  }

  /** Every continuation starting here is longer than the chunks that asked for more. */
  lemma ContinuesPast(bytes: seq<Byte>, from: nat, next: nat, value: nat, n: nat)
    requires Reading(bytes, from, next, true, value) && Continues(bytes, from, n)
    ensures |Cont(n)| > next - from
    ensures next < |bytes|
    ensures n >= value + Pow128(next - from) * (bytes[next] % 128)
    ensures bytes[next] != 0
  {
    hide Cont, ChunkValue, Pow128;
    ContShape(n);
    var cs, k := Cont(n), next - from;
    var last := |cs| - 1;
    ContinuesAt(bytes, from, n, last);
    if last < k { MoreAt(bytes, from, next, from + last); }
    ContinuesAt(bytes, from, n, k);
    assert cs[..k + 1] == bytes[from..next] + [bytes[next]] by {
      forall i | 0 <= i < k ensures cs[i] == bytes[from + i] { ContinuesAt(bytes, from, n, i); }
    }
    ChunkValuePrefix(cs, k + 1);
    ChunkValueSnoc(bytes[from..next], bytes[next]);
    if k < last { NotLastMore(cs, k); }
  }

  // Why the loop may give up: nothing that starts here fits ten bytes and 64 bits.
  lemma NothingContinues(bytes: seq<Byte>, from: nat, next: nat, value: nat, low: nat, bits: nat, m: nat, n: nat)
    requires Reading(bytes, from, next, true, value) && Continues(bytes, from, n)
    requires FirstWidth(bits, m)
    requires next - from == 9 || next == |bytes| || bytes[next] == 0
             || low + m * (value + Pow128(next - from) * (bytes[next] % 128)) > U64_MAX
    ensures low + m * n > U64_MAX
  {
    hide Cont, Pow128;
    ContinuesPast(bytes, from, next, value, n);
    if next - from == 9 {
      LongContinuation(n, low, bits, m);
    } else {
      MulMono(m, value + Pow128(next - from) * (bytes[next] % 128), n);
    }
  }

  lemma ReadStep(bytes: seq<Byte>, from: nat, next: nat, value: nat)
    requires Reading(bytes, from, next, true, value) && next < |bytes|
    ensures var more, value' := bytes[next] >= 128, value + Pow128(next - from) * (bytes[next] % 128);
            more || bytes[next] % 128 != 0 ==> Reading(bytes, from, next + 1, more, value')
  {
    var chunks, b := bytes[from..next], bytes[next];
    assert bytes[from..next + 1] == chunks + [b];
    ChunkValueSnoc(chunks, b);
    if b < 128 && b > 0 { ContAfterChunks(chunks, b); }
  }

  // Payload bookkeeping: where the next chunk lands, and when it still fits 64 bits.
  lemma PlaceChunk(bytes: seq<Byte>, from: nat, next: nat, value: nat, low: nat, bits: nat, m: nat, chunk: nat)
    requires Reading(bytes, from, next, true, value) && FirstWidth(bits, m) && low < m && next - from <= 8
    ensures var shift := bits + 7 * (next - from); var value' := value + Pow128(next - from) * chunk;
            && shift < 64 && Pow2(shift) > 0
            && low + m * value + Pow2(shift) * chunk == low + m * value'
            && (low + m * value' <= U64_MAX <==> chunk <= U64_MAX / Pow2(shift))
  {
    var k := next - from;
    var shift := bits + 7 * k;
    assert |bytes[from..next]| == k;
    PayloadBelowShift(bytes[from..next], low, bits, m);
    ShiftValue(bits, m, k);
    assert value == ChunkValue(bytes[from..next]);
    hide *;
    ChunkFits(low + m * value, chunk, shift);
    ChunkPlace(m, Pow128(k), value, chunk);
  }

  /** The continuation loop: its shift stays below 64 and it reads at most nine bytes. */
  method ParseContinuation(bytes: seq<Byte>, from: nat, low: nat, bits: nat, m: nat)
    returns (r: Result<(nat, nat)>, ghost rest: nat)
    requires from <= |bytes| && FirstWidth(bits, m) && low < m
    ensures r.Ok? ==> var (payload, next) := r.value;
                      && from < next <= |bytes| && rest > 0 && bytes[from..next] == Cont(rest)
                      && payload == low + m * rest <= U64_MAX
    ensures r.Err? ==> forall n | Continues(bytes, from, n) :: low + m * n > U64_MAX
  {
    rest := 0;
    var payload, next, shift, length, more := low, from, bits, 1, true;
    StartReading(bytes, from);
    hide Cont, ChunkValue, Pow128, Pow2, Continues, Reading, FirstWidth;
    while more
      invariant from <= next <= |bytes| && length == 1 + next - from <= 10
      invariant Reading(bytes, from, next, more, rest)
      invariant payload == low + m * rest <= U64_MAX
      invariant more ==> shift == bits + 7 * (next - from)
      decreases |bytes| - next, more
    {
      if length == 10 || next == |bytes| {
        forall n | Continues(bytes, from, n) ensures low + m * n > U64_MAX {
          NothingContinues(bytes, from, next, rest, low, bits, m, n);
        }
        return Err(Corruption), rest;
      }
      var byte := bytes[next];
      var chunk := byte % 128;
      PlaceChunk(bytes, from, next, rest, low, bits, m, chunk);
      // The shift stays below the width of the payload, so it cannot be refused.
      assert shift < 64;
      if chunk > U64_MAX / Pow2(shift) || byte == 0 {
        forall n | Continues(bytes, from, n) ensures low + m * n > U64_MAX {
          NothingContinues(bytes, from, next, rest, low, bits, m, n);
        }
        return Err(Corruption), rest;
      }
      ReadStep(bytes, from, next, rest);
      payload := payload + Pow2(shift) * chunk;
      rest := rest + Pow128(next - from) * chunk;
      next := next + 1;
      length := length + 1;
      more := byte >= 128;
      if more { shift := shift + 7; }
    }
    ReadingDone(bytes, from, next, rest);
    return Ok((payload, next)), rest;
  }

  lemma ReadingDone(bytes: seq<Byte>, from: nat, next: nat, value: nat)
    requires Reading(bytes, from, next, false, value)
    ensures from < next <= |bytes| && value > 0 && bytes[from..next] == Cont(value)
  {
  }

  lemma StartReading(bytes: seq<Byte>, from: nat)
    requires from <= |bytes|
    ensures Reading(bytes, from, from, true, 0)
  {
  }

  // Ten bytes hold every 64-bit payload, so a longer continuation exceeds 64 bits.
  lemma LongContinuation(n: nat, low: nat, bits: nat, m: nat)
    requires n > 0 && |Cont(n)| > 9 && FirstWidth(bits, m)
    ensures low + m * n > U64_MAX
  {
    ContShape(n);
    PowMono(9, |Cont(n)| - 1);
    ShiftValue(bits, m, 9);
    PowTwoMono(64, bits + 63);
    Pow2Of64();
    hide Cont, Pow2, Pow128;
    MulMono(m, Pow128(9), n);
  }

  lemma {:induction false} PowMono(a: nat, b: nat)
    requires a <= b
    ensures Pow128(a) <= Pow128(b)
    decreases b
  {
    if a < b { PowMono(a, b - 1); }
  }

  lemma {:induction false} PowTwoMono(a: nat, b: nat)
    requires a <= b
    ensures Pow2(a) <= Pow2(b)
    decreases b
  {
    if a < b { PowTwoMono(a, b - 1); }
  }

  lemma PayloadBelowShift(chunks: seq<Byte>, low: nat, bits: nat, m: nat)
    requires FirstWidth(bits, m) && low < m
    ensures low + m * ChunkValue(chunks) < Pow2(bits + 7 * |chunks|)
  {
    ChunkValueBound(chunks);
    ShiftValue(bits, m, |chunks|);
    MulMono(m, ChunkValue(chunks), Pow128(|chunks|) - 1);
    assert m * (Pow128(|chunks|) - 1) == m * Pow128(|chunks|) - m;
  }

  lemma ChunkPlace(m: nat, p: nat, value: nat, chunk: nat)
    ensures m * value + (m * p) * chunk == m * (value + p * chunk)
  {
    MulAssoc(m, p, chunk);
  }

  // How the first byte divides into tag, continuation bit and payload.
  function KindModulus(first: Byte): nat { if first < 0x80 then 64 else if first < 0xC0 then 32 else 16 }
  function KindBits(first: Byte): nat { if first < 0x80 then 6 else if first < 0xC0 then 5 else 4 }
  function KindTag(first: Byte): nat { if first < 0x80 then 0 else if first < 0xC0 then 0x80 else 0xC0 }
  predicate AsksMore(first: Byte) { first - KindTag(first) >= KindModulus(first) }
  function FirstPayload(first: Byte): nat
    requires first < 0xE0
  {
    first - KindTag(first) - (if AsksMore(first) then KindModulus(first) else 0)
  }
  function KindToken(first: Byte, payload: nat): Token {
    if first < 0x80 then Lit(payload) else if first < 0xC0 then ZeroRun(payload) else NullRun(payload)
  }

  /** Parses one token; fails exactly when no valid token starts here. */
  method ParseToken(bytes: seq<Byte>, offset: nat) returns (r: Result<(Token, nat)>)
    ensures r.Ok? ==> offset < r.value.1 <= |bytes| && r.value.0.Valid()
                      && bytes[offset..r.value.1] == TokenBytes(r.value.0)
    ensures r.Err? ==> forall t: Token | t.Valid() :: !TokenStarts(bytes, offset, t)
  {
    hide Cont, TokenBytes, TokenStarts, Continues;
    forall t: Token | TokenStarts(bytes, offset, t)
      ensures StartShape(bytes, offset, t)
    {
      Starts(bytes, offset, t);
    }
    if offset >= |bytes| { return Err(Corruption); }
    var first := bytes[offset];
    if first >= 0xE0 { return Err(Corruption); }
    var low, m := FirstPayload(first), KindModulus(first);
    var payload, next := low, offset + 1;
    ghost var rest := 0;
    if AsksMore(first) {
      var continued, rest' := ParseContinuation(bytes, offset + 1, low, KindBits(first), m);
      if continued.Err? { return Err(continued.error); }
      payload, next := continued.value.0, continued.value.1;
      rest := rest';
    }
    if payload == 0 { return Err(Corruption); }
    TokenIs(bytes, offset, next, payload, rest);
    return Ok((KindToken(first, payload), next));
  }

  predicate TokenStarts(bytes: seq<Byte>, offset: nat, t: Token) {
    offset <= |bytes| && TokenBytes(t) <= bytes[offset..]
  }

  // What a token found at `offset` says about the bytes there.
  ghost predicate StartShape(bytes: seq<Byte>, offset: nat, t: Token) {
    && offset < |bytes| && bytes[offset] < 0xE0
    && t == KindToken(bytes[offset], t.payload)
    && if AsksMore(bytes[offset])
       then exists n ::
         Continues(bytes, offset + 1, n) && t.payload == FirstPayload(bytes[offset]) + KindModulus(bytes[offset]) * n
       else t.payload == FirstPayload(bytes[offset])
  }

  lemma Starts(bytes: seq<Byte>, offset: nat, t: Token)
    requires TokenStarts(bytes, offset, t)
    ensures StartShape(bytes, offset, t)
  {
    FirstByte(t);
    hide Cont;
    var tb, f := TokenBytes(t), bytes[offset];
    assert bytes[offset..][0] == tb[0] == f;
    var n := match t case Lit(p) => p / 64 case ZeroRun(p) => p / 32 case NullRun(p) => p / 16;
    if n > 0 {
      assert tb == [f] + Cont(n);
      assert tb[1..] == Cont(n) && bytes[offset + 1..] == bytes[offset..][1..];
      assert Continues(bytes, offset + 1, n);
      assert t.payload == FirstPayload(f) + KindModulus(f) * n;
    }
  }

  lemma TokenIs(bytes: seq<Byte>, offset: nat, next: nat, payload: nat, rest: nat)
    requires offset < next <= |bytes| && bytes[offset] < 0xE0
    requires payload == FirstPayload(bytes[offset]) + KindModulus(bytes[offset]) * rest
    requires if AsksMore(bytes[offset]) then rest > 0 && bytes[offset + 1..next] == Cont(rest)
             else rest == 0 && next == offset + 1
    ensures bytes[offset..next] == TokenBytes(KindToken(bytes[offset], payload))
  {
    assert bytes[offset..next] == [bytes[offset]] + bytes[offset + 1..next];
    hide Cont;
    var first := bytes[offset];
    if first < 0x80 {
      assert payload / 64 == rest && payload % 64 == FirstPayload(first);
    } else if first < 0xC0 {
      assert payload / 32 == rest && payload % 32 == FirstPayload(first);
    } else {
      assert payload / 16 == rest && payload % 16 == FirstPayload(first);
    }
  }

  // ------------------------------------------------------------------ scan

  function Represented(t: Token): nat { if t.Lit? then 1 else t.payload }

  function FactsOf(ts: seq<Token>): nat {
    if ts == [] then 0 else FactsOf(ts[..|ts| - 1]) + Represented(ts[|ts| - 1])
  }

  function NullsOf(ts: seq<Token>): nat {
    if ts == [] then 0 else NullsOf(ts[..|ts| - 1]) + (if ts[|ts| - 1].NullRun? then ts[|ts| - 1].payload else 0)
  }

  lemma {:induction false} RunNulls(x: Symbol, n: nat)
    ensures NullCount(Run(x, n)) == if x.Null? then n else 0
  {
    if n > 0 {
      assert Run(x, n)[..n - 1] == Run(x, n - 1);
      RunNulls(x, n - 1);
    }
  }

  lemma TokenSymbolCounts(t: Token)
    requires t.Valid()
    ensures |TokenSymbols(t)| == Represented(t)
    ensures NullCount(TokenSymbols(t)) == if t.NullRun? then t.payload else 0
  {
    match t {
      case Lit(v) => assert [Value(v)][..0] == [];
      case ZeroRun(n) => RunNulls(Value(0), n);
      case NullRun(n) => RunNulls(Null, n);
    }
  }

  lemma {:induction false} ExpandCounts(ts: seq<Token>)
    requires forall i | 0 <= i < |ts| :: ts[i].Valid()
    ensures |Expand(ts)| == FactsOf(ts) && NullCount(Expand(ts)) == NullsOf(ts)
  {
    if ts != [] {
      var init, last := ts[..|ts| - 1], ts[|ts| - 1];
      ExpandCounts(init);
      TokenSymbolCounts(last);
      hide TokenSymbols, NullCount;
      NullCountAppend(Expand(init), TokenSymbols(last));
    }
  }

  lemma {:induction false} FactsMono(ts: seq<Token>, k: nat)
    requires k <= |ts|
    ensures FactsOf(ts[..k]) <= FactsOf(ts)
  {
    if k < |ts| {
      FactsMono(ts[..|ts| - 1], k);
      assert ts[..|ts| - 1][..k] == ts[..k];
    } else {
      assert ts[..k] == ts;
    }
  }

  // What the scanning loop accepts: canonical tokens the mode allows, within the row budget.
  ghost predicate Accepted(ts: seq<Token>, mode: Mode, maximum: nat) {
    && Canonical(ts)
    && (mode.Timestamps? ==> forall i | 0 <= i < |ts| :: !ts[i].NullRun?)
    && FactsOf(ts) <= maximum
  }

  ghost predicate Parses(bytes: seq<Byte>, ts: seq<Token>) { bytes != [] && TokensBytes(ts) == bytes }

  // No accepted parse of the input survives a token the loop rejects.
  lemma Rejects(bytes: seq<Byte>, offset: nat, parsed: seq<Token>, ts: seq<Token>, mode: Mode, maximum: nat)
    requires offset < |bytes| && bytes[..offset] == TokensBytes(parsed)
    requires Parses(bytes, ts) && Accepted(ts, mode, maximum)
    ensures |parsed| < |ts| && parsed == ts[..|parsed|]
    ensures TokenStarts(bytes, offset, ts[|parsed|]) && ts[|parsed|].Valid()
    ensures Accepted(parsed + [ts[|parsed|]], mode, maximum)
  {
    hide *;
    ParsesOn(bytes, offset, parsed, ts);
    AcceptedPrefix(ts, mode, maximum, |parsed| + 1);
    assert ts[..|parsed| + 1] == parsed + [ts[|parsed|]];
  }

  lemma ParsesOn(bytes: seq<Byte>, offset: nat, parsed: seq<Token>, ts: seq<Token>)
    requires offset < |bytes| && bytes[..offset] == TokensBytes(parsed) && Parses(bytes, ts)
    ensures |parsed| < |ts| && parsed == ts[..|parsed|]
    ensures TokenStarts(bytes, offset, ts[|parsed|])
  {
    hide TokenBytes, TokensBytes;
    EmptyScan();
    assert bytes == bytes[..offset] + bytes[offset..];
    UniqueParse(parsed, ts, bytes[offset..]);
    var rest := ts[|parsed|..];
    TokensBytesCons(rest);
  }

  lemma AcceptedPrefix(ts: seq<Token>, mode: Mode, maximum: nat, k: nat)
    requires Accepted(ts, mode, maximum) && k <= |ts|
    ensures Accepted(ts[..k], mode, maximum)
    ensures forall i | 0 <= i < |ts| :: ts[i].Valid()
  {
    FactsMono(ts, k);
    hide FactsOf, Token.RepeatsRun;
    assert forall i | 0 <= i < k :: ts[..k][i] == ts[i];
  }

  lemma NothingParses(bytes: seq<Byte>, offset: nat, parsed: seq<Token>, mode: Mode, maximum: nat)
    requires offset < |bytes| && bytes[..offset] == TokensBytes(parsed)
    requires forall t: Token | t.Valid() :: !TokenStarts(bytes, offset, t)
    ensures forall ts | Parses(bytes, ts) :: !Accepted(ts, mode, maximum)
  {
    hide *;
    forall ts | Parses(bytes, ts) ensures !Accepted(ts, mode, maximum) {
      if Accepted(ts, mode, maximum) { Rejects(bytes, offset, parsed, ts, mode, maximum); }
    }
  }

  lemma RejectedToken(bytes: seq<Byte>, offset: nat, next: nat, parsed: seq<Token>, t: Token, mode: Mode, maximum: nat)
    requires offset < next <= |bytes| && bytes[..offset] == TokensBytes(parsed)
    requires bytes[offset..next] == TokenBytes(t) && !Accepted(parsed + [t], mode, maximum)
    ensures forall ts | Parses(bytes, ts) :: !Accepted(ts, mode, maximum)
  {
    hide *;
    forall ts | Parses(bytes, ts) ensures !Accepted(ts, mode, maximum) {
      if Accepted(ts, mode, maximum) {
        Rejects(bytes, offset, parsed, ts, mode, maximum);
        SameToken(bytes, offset, next, t, ts[|parsed|]);
      }
    }
  }

  method ScanTokens(bytes: seq<Byte>, mode: Mode, maximum: nat, emit: bool)
    returns (r: Result<(nat, nat)>, symbols: seq<Symbol>, ghost tokens: seq<Token>)
    requires maximum <= U32_MAX
    ensures r.Ok? ==> Parses(bytes, tokens) && Accepted(tokens, mode, maximum)
                      && r.value == (FactsOf(tokens), NullsOf(tokens))
                      && symbols == if emit then Expand(tokens) else []
    ensures r.Err? ==> forall ts | Parses(bytes, ts) :: !Accepted(ts, mode, maximum)
  {
    symbols, tokens := [], [];
    if bytes == [] { return Err(Corruption), symbols, tokens; }
    var offset, facts, nulls := 0, 0, 0;
    var previous: Option<Token> := None;
    StartScan(mode, maximum);
    hide *;
    while offset < |bytes|
      invariant offset <= |bytes| && bytes[..offset] == TokensBytes(tokens)
      invariant Accepted(tokens, mode, maximum) && facts == FactsOf(tokens) && nulls == NullsOf(tokens)
      invariant symbols == if emit then Expand(tokens) else []
      invariant previous == if tokens == [] then None else Some(tokens[|tokens| - 1])
    {
      var step := ParseToken(bytes, offset);
      if step.Err? {
        NothingParses(bytes, offset, tokens, mode, maximum);
        return Err(step.error), symbols, tokens;
      }
      var (token, next) := step.value;
      AcceptStep(tokens, token, mode, maximum);
      if (previous.Some? && token.RepeatsRun(previous.value))
         || (token.NullRun? && mode.Timestamps?)
         || facts + Represented(token) > maximum
      {
        RejectedToken(bytes, offset, next, tokens, token, mode, maximum);
        return Err(Corruption), symbols, tokens;
      }
      ExpandSnoc(tokens, token);
      ParsedStep(bytes, offset, next, tokens, token);
      facts := facts + Represented(token);
      nulls := nulls + if token.NullRun? then token.payload else 0;
      if emit { symbols := symbols + TokenSymbols(token); }
      previous := Some(token);
      tokens := tokens + [token];
      offset := next;
    }
    assert bytes[..offset] == bytes;
    AllParsed(bytes, tokens);
    return Ok((facts, nulls)), symbols, tokens;
  }

  lemma ParsedStep(bytes: seq<Byte>, offset: nat, next: nat, ts: seq<Token>, t: Token)
    requires offset < next <= |bytes| && bytes[..offset] == TokensBytes(ts) && bytes[offset..next] == TokenBytes(t)
    ensures bytes[..next] == TokensBytes(ts + [t])
  {
    hide *;
    BytesSnoc(ts, t);
    assert bytes[..next] == bytes[..offset] + bytes[offset..next];
  }

  lemma AllParsed(bytes: seq<Byte>, ts: seq<Token>)
    requires bytes != [] && TokensBytes(ts) == bytes
    ensures Parses(bytes, ts)
  {
  }

  lemma StartScan(mode: Mode, maximum: nat)
    ensures TokensBytes([]) == [] && Accepted([], mode, maximum) && FactsOf([]) == 0 && NullsOf([]) == 0
    ensures Expand([]) == []
  {
  }

  // The three checks of the loop are exactly what keeps the parse accepted.
  lemma AcceptStep(ts: seq<Token>, t: Token, mode: Mode, maximum: nat)
    requires Accepted(ts, mode, maximum) && t.Valid()
    ensures FactsOf(ts + [t]) == FactsOf(ts) + Represented(t)
    ensures NullsOf(ts + [t]) == NullsOf(ts) + (if t.NullRun? then t.payload else 0)
    ensures Accepted(ts + [t], mode, maximum) <==>
            !(ts != [] && t.RepeatsRun(ts[|ts| - 1])) && !(t.NullRun? && mode.Timestamps?)
              && FactsOf(ts) + Represented(t) <= maximum
  {
    FactsSnoc(ts, t);
    hide FactsOf, NullsOf, Token.RepeatsRun, Represented;
    var us := ts + [t];
    assert us[|ts|] == t && (ts != [] ==> us[|ts| - 1] == ts[|ts| - 1]);
    assert forall i | 0 <= i < |ts| :: us[i] == ts[i];
  }

  lemma EmptyScan()
    ensures TokensBytes([]) == []
  {
  }

  lemma SameToken(bytes: seq<Byte>, offset: nat, next: nat, a: Token, b: Token)
    requires offset < next <= |bytes| && bytes[offset..next] == TokenBytes(a) && TokenStarts(bytes, offset, b)
    ensures a == b
  {
    hide TokenBytes;
    var all := bytes[offset..];
    assert all == bytes[offset..next] + bytes[next..];
    assert all == TokenBytes(b) + all[|TokenBytes(b)|..];
    TokenPrefixFree(a, b, bytes[next..], all[|TokenBytes(b)|..]);
  }

  lemma FactsSnoc(ts: seq<Token>, t: Token)
    ensures FactsOf(ts + [t]) == FactsOf(ts) + Represented(t)
    ensures NullsOf(ts + [t]) == NullsOf(ts) + (if t.NullRun? then t.payload else 0)
  {
    assert (ts + [t])[..|ts|] == ts;
  }

  // A stream the decoder must return for these bytes and directory counts.
  predicate Decodes(bytes: seq<Byte>, mode: Mode, facts: nat, nulls: nat, s: seq<Symbol>) {
    Legal(s, mode) && |s| == facts && NullCount(s) == nulls && Encode(s) == bytes
  }

  /** A legal stream parses as its own tokens, which the scan accepts. */
  lemma LegalParses(bytes: seq<Byte>, mode: Mode, facts: nat, nulls: nat, s: seq<Symbol>)
    requires Decodes(bytes, mode, facts, nulls, s)
    ensures Parses(bytes, Tokens(s)) && Accepted(Tokens(s), mode, facts)
  {
    ExpandTokens(s);
    ExpandCounts(Tokens(s));
    assert bytes != [] by { NonEmpty(Tokens(s)); }
    hide Tokens;
    if mode.Timestamps? { NoNullRuns(Tokens(s)); }
  }

  lemma NonEmpty(ts: seq<Token>)
    requires ts != []
    ensures TokensBytes(ts) != []
  {
    FirstByte(ts[|ts| - 1]);
    hide TokenBytes;
  }

  lemma {:induction false} NoNullRuns(ts: seq<Token>)
    requires NullsOf(ts) == 0 && forall i | 0 <= i < |ts| :: ts[i].Valid()
    ensures forall i | 0 <= i < |ts| :: !ts[i].NullRun?
  {
    if ts != [] {
      NoNullRuns(ts[..|ts| - 1]);
      assert forall i | 0 <= i < |ts| - 1 :: ts[..|ts| - 1][i] == ts[i];
    }
  }

  lemma {:induction false} NoNullsCounted(ts: seq<Token>)
    requires forall i | 0 <= i < |ts| :: !ts[i].NullRun?
    ensures NullsOf(ts) == 0
  {
    if ts != [] { NoNullsCounted(ts[..|ts| - 1]); }
  }

  /** Accepted bytes are the encoding of what they expand to. */
  lemma AcceptedDecodes(bytes: seq<Byte>, mode: Mode, ts: seq<Token>, maximum: nat)
    requires Parses(bytes, ts) && Accepted(ts, mode, maximum) && 1 <= FactsOf(ts) <= MAX_SECTION_ROWS
    ensures Decodes(bytes, mode, FactsOf(ts), NullsOf(ts), Expand(ts))
  {
    TokensExpand(ts);
    ExpandCounts(ts);
    if mode.Timestamps? { NoNullsCounted(ts); }
  }

  /** Decoding succeeds exactly on encodings, and then returns the one stream encoded. */
  method Decode(bytes: seq<Byte>, mode: Mode, expectedFacts: U32, expectedNulls: U32) returns (r: Result<seq<Symbol>>)
    ensures r.Ok? ==> Decodes(bytes, mode, expectedFacts, expectedNulls, r.value)
    ensures r.Err? ==> forall s :: !Decodes(bytes, mode, expectedFacts, expectedNulls, s)
  {
    hide Tokens, TokensBytes, Expand;
    forall s ensures NullCount(s) <= |s| { NullCountBound(s); }
    if expectedFacts == 0 { return Err(Corruption); }
    if expectedFacts > MAX_SECTION_ROWS { return Err(Limit); }
    if expectedNulls > expectedFacts { return Err(Corruption); }
    var counts, _, tokens := ScanTokens(bytes, mode, expectedFacts, false);
    if counts.Err? || counts.value != (expectedFacts, expectedNulls) {
      forall s ensures !Decodes(bytes, mode, expectedFacts, expectedNulls, s) {
        if Decodes(bytes, mode, expectedFacts, expectedNulls, s) {
          LegalParses(bytes, mode, expectedFacts, expectedNulls, s);
          if counts.Ok? { OneParse(bytes, mode, s, tokens, expectedFacts); }
        }
      }
      return Err(Corruption);
    }
    var again, symbols, tokens' := ScanTokens(bytes, mode, expectedFacts, true);
    AcceptedDecodes(bytes, mode, tokens, expectedFacts);
    LegalParses(bytes, mode, expectedFacts, expectedNulls, Expand(tokens));
    OneParse(bytes, mode, Expand(tokens), tokens', expectedFacts);
    return Ok(symbols);
  }

  lemma OneParse(bytes: seq<Byte>, mode: Mode, s: seq<Symbol>, ts: seq<Token>, maximum: nat)
    requires Legal(s, mode) && Encode(s) == bytes
    requires Parses(bytes, ts) && Accepted(ts, mode, maximum)
    ensures Expand(ts) == s && FactsOf(ts) == |s| && NullsOf(ts) == NullCount(s)
  {
    TokensExpand(ts);
    ExpandTokens(s);
    ExpandCounts(ts);
    hide Tokens, Expand, FactsOf, NullsOf;
    assert TokensBytes(Tokens(s)) == TokensBytes(ts) + [];
    UniqueParse(ts, Tokens(s), []);
    var extra := Tokens(s)[|ts|..];
    if extra != [] { NonEmpty(extra); }
    assert Tokens(s) == ts;
  }
}
