/** The measuring and writing loops of the NVR coder, proved against `Nvr.Encode`. */
module NvrEncoding {
  import opened Prelude
  import opened Nvr
  import Sequences

  // Streams the coder accepts: one to 65,536 symbols, no null among timestamps.
  predicate Legal(s: seq<Symbol>, mode: Mode) {
    1 <= |s| <= 65_536 && (mode.Timestamps? ==> NullCount(s) == 0)
  }

  function PlanOf(s: seq<Symbol>): Plan { Plan(|Encode(s)|, |s|, NullCount(s)) }

  lemma {:induction false} ContLength(n: nat, k: nat)
    requires 0 < n < Pow128(k)
    ensures |Cont(n)| <= k
  {
    if n >= 128 {
      assert n / 128 < Pow128(k - 1);
      ContLength(n / 128, k - 1);
    }
  }

  /** No token of a 64-bit payload exceeds ten bytes. */
  lemma TokenAtMostTenBytes(t: Token)
    requires t.Valid()
    ensures 1 <= |TokenBytes(t)| <= 10
  {
    assert Pow128(9) == 0x8000_0000_0000_0000 by {
      assert Pow128(3) == 0x20_0000;
      assert Pow128(6) == 0x20_0000 * 0x20_0000 by { assert Pow128(4) == 128 * 0x20_0000; }
    }
    var rest := match t case Lit(n) => n / 64 case ZeroRun(n) => n / 32 case NullRun(n) => n / 16;
    hide Cont;
    if rest > 0 { ContLength(rest, 9); }
  }

  lemma {:induction false} StreamLength(ts: seq<Token>)
    requires forall i | 0 <= i < |ts| :: ts[i].Valid()
    ensures |TokensBytes(ts)| <= 10 * |ts|
  {
    if ts != [] {
      StreamLength(ts[..|ts| - 1]);
      TokenAtMostTenBytes(ts[|ts| - 1]);
    }
  }

  lemma {:induction false} TokenCount(s: seq<Symbol>)
    ensures |Tokens(s)| <= |s|
  {
    if s != [] { TokenCount(s[..|s| - 1]); }
  }

  /** The length of a token, counted by shifting its payload out. */
  method TokenLen(token: Token) returns (r: Result<nat>)
    ensures token.payload == 0 <==> r.Err?
    ensures r.Ok? ==> r.value == |TokenBytes(token)|
  {
    if token.payload == 0 { return Err(Corruption); }
    var remaining: nat := match token
      case Lit(n) => n / 64
      case ZeroRun(n) => n / 32
      case NullRun(n) => n / 16;
    var length := 1;
    while remaining != 0
      invariant length + (if remaining == 0 then 0 else |Cont(remaining)|) == |TokenBytes(token)|
    {
      length := length + 1;
      remaining := remaining / 128;
    }
    return Ok(length);
  }

  /** Writes a token at `offset`; fails only when the output is too short. */
  method WriteToken(token: Token, output: array<Byte>, offset: nat) returns (r: Result<nat>)
    requires offset <= output.Length
    modifies output
    ensures r.Ok? <==> token.payload != 0 && offset + |TokenBytes(token)| <= output.Length
    ensures r.Ok? ==> r.value == offset + |TokenBytes(token)|
    ensures r.Ok? ==> output[..r.value] == old(output[..offset]) + TokenBytes(token)
    ensures r.Ok? ==> output[r.value..] == old(output[r.value..])
  {
    if token.payload == 0 { return Err(Corruption); }
    var low, continuation, remaining;
    match token {
      case Lit(n) => low, continuation, remaining := 0x00 + n % 64, 0x40, n / 64;
      case ZeroRun(n) => low, continuation, remaining := 0x80 + n % 32, 0x20, n / 32;
      case NullRun(n) => low, continuation, remaining := 0xC0 + n % 16, 0x10, n / 16;
    }
    assert TokenBytes(token) == Tagged(low, continuation, remaining);
    hide TokenBytes;
    r := WriteTail(low, continuation, remaining, output, offset);
  }

  method WriteTail(low: Byte, continuation: nat, rest: nat, output: array<Byte>, offset: nat) returns (r: Result<nat>)
    requires offset <= output.Length && low + continuation <= U8_MAX
    modifies output
    ensures r.Ok? <==> offset + |Tagged(low, continuation, rest)| <= output.Length
    ensures r.Ok? ==> r.value == offset + |Tagged(low, continuation, rest)|
    ensures r.Ok? ==> output[..r.value] == old(output[..offset]) + Tagged(low, continuation, rest)
    ensures r.Ok? ==> output[r.value..] == old(output[r.value..])
  {
    ghost var target := Tagged(low, continuation, rest);
    var remaining, next := rest, offset;
    if next >= output.Length { return Err(Corruption); }
    output[next] := low + if remaining == 0 then 0 else continuation;
    next := next + 1;
    while remaining != 0
      invariant offset < next <= output.Length
      invariant output[..next] + (if remaining == 0 then [] else Cont(remaining)) == old(output[..offset]) + target
      invariant output[next..] == old(output[next..])
      decreases remaining
    {
      var payload := remaining % 128;
      ghost var now := output[..next];
      if next >= output.Length {
        assert |output[..next] + Cont(remaining)| > output.Length by { ContShape(remaining); }
        return Err(Corruption);
      }
      ghost var cont := Cont(remaining);
      remaining := remaining / 128;
      output[next] := payload + if remaining == 0 then 0 else 0x80;
      ghost var left := if remaining == 0 then [] else Cont(remaining);
      assert output[..next + 1] == now + [output[next]];
      assert cont == [output[next]] + left;
      Sequences.Associative(now, [output[next]], left);
      next := next + 1;
    }
    return Ok(next);
  }

  // The tokens of a stream that can no longer grow, and the one that still can.
  function CompletedOf(s: seq<Symbol>): seq<Token> {
    var ts := Tokens(s);
    if ts == [] then [] else ts[..|ts| - 1]
  }

  function PendingOf(s: seq<Symbol>): Option<Token> {
    var ts := Tokens(s);
    if ts == [] then None else Some(ts[|ts| - 1])
  }

  lemma TokensSplit(s: seq<Symbol>)
    ensures s != [] <==> PendingOf(s).Some?
    ensures PendingOf(s).Some? ==> Tokens(s) == CompletedOf(s) + [PendingOf(s).value]
  {
  }

  // How one more symbol moves the boundary between completed and pending.
  lemma ObserveStep(s: seq<Symbol>, x: Symbol)
    ensures var p := PendingOf(s);
            if p.Some? && Single(x).RepeatsRun(p.value)
            then CompletedOf(s + [x]) == CompletedOf(s) && PendingOf(s + [x]) == Some(Longer(p.value))
            else CompletedOf(s + [x]) == CompletedOf(s) + (if p.Some? then [p.value] else [])
                 && PendingOf(s + [x]) == Some(Single(x))
  {
    TokensSnoc(s, x);
    hide Tokens, Single, Longer;
    var ts := Tokens(s);
    if ts != [] { assert ts == ts[..|ts| - 1] + [ts[|ts| - 1]]; }
  }

  /** Merges a stream of symbols into tokens, holding back the one still growing. */
  class NvrState {
    const mode: Mode
    var pending: Option<Token>
    var factCount: nat
    var nullCount: nat
    ghost var seen: seq<Symbol>

    ghost predicate Valid()
      reads this
    {
      && factCount == |seen| <= MAX_SECTION_ROWS
      && nullCount == NullCount(seen)
      && (mode.Timestamps? ==> nullCount == 0)
      && pending == PendingOf(seen)
    }

    // The tokens already handed out.
    ghost function Completed(): seq<Token>
      reads this
    {
      CompletedOf(seen)
    }

    constructor (mode: Mode)
      ensures Valid() && this.mode == mode && seen == [] && Completed() == []
    {
      this.mode := mode;
      pending, factCount, nullCount, seen := None, 0, 0, [];
    }

    method Observe(symbol: Symbol) returns (r: Result<Option<Token>>)
      requires Valid()
      modifies this
      ensures Valid()
      ensures r.Ok? <==> old(|seen|) < MAX_SECTION_ROWS && (mode.Timestamps? ==> !symbol.Null?)
      ensures r.Ok? ==> seen == old(seen) + [symbol]
      ensures r.Ok? ==> Completed() == old(Completed()) + (if r.value.Some? then [r.value.value] else [])
      ensures r.Err? ==> unchanged(this)
    {
      hide NullCount, Single, Longer, CompletedOf, PendingOf, Token.RepeatsRun;
      if factCount + 1 > MAX_SECTION_ROWS { return Err(Limit); }
      if symbol.Null? && mode.Timestamps? { return Err(Invalid); }
      ObserveStep(seen, symbol);
      NullCountSnoc(seen, symbol);
      var next, held := Single(symbol), pending;
      var merges := held.Some? && next.RepeatsRun(held.value);
      pending := if merges then Some(Longer(held.value)) else Some(next);
      var completed := if merges then None else held;
      factCount := factCount + 1;
      if symbol.Null? { nullCount := nullCount + 1; }
      seen := seen + [symbol];
      return Ok(completed);
    }

    /** The last token and the counts; an empty stream has none. */
    method Finish() returns (r: Result<(Token, nat, nat)>)
      requires Valid()
      ensures r.Ok? <==> seen != []
      ensures r.Ok? ==> r.value.1 == |seen| && r.value.2 == NullCount(seen)
      ensures r.Ok? ==> Tokens(seen) == Completed() + [r.value.0]
    {
      TokensSplit(seen);
      if pending.None? { return Err(Invalid); }
      return Ok((pending.value, factCount, nullCount));
    }
  }

  lemma NullCountSnoc(s: seq<Symbol>, x: Symbol)
    ensures NullCount(s + [x]) == NullCount(s) + (if x.Null? then 1 else 0)
  {
    assert (s + [x])[..|s|] == s;
  }

  // What the last completed token adds to a stream.
  lemma BytesSnoc(ts: seq<Token>, t: Token)
    ensures TokensBytes(ts + [t]) == TokensBytes(ts) + TokenBytes(t)
  {
    hide TokenBytes;
    assert (ts + [t])[..|ts|] == ts;
  }

  lemma CompletedTokens(s: seq<Symbol>, t: Token)
    requires |s| <= MAX_SECTION_ROWS && t in Tokens(s)
    ensures t.Valid()
  {
    ExpandTokens(s);
  }

  lemma PositivePayload(t: Token)
    requires t.Valid()
    ensures t.payload > 0
  {
  }

  /** Every byte length, of the stream or of its completed part, fits the 32-bit field that stores it. */
  lemma StreamFitsU32(s: seq<Symbol>)
    requires |s| <= MAX_SECTION_ROWS
    ensures |Encode(s)| <= 10 * MAX_SECTION_ROWS && |TokensBytes(CompletedOf(s))| <= 10 * MAX_SECTION_ROWS
  {
    ExpandTokens(s);
    StreamLength(Tokens(s));
    TokenCount(s);
    forall i | 0 <= i < |CompletedOf(s)| ensures CompletedOf(s)[i].Valid() { assert Tokens(s)[i] == CompletedOf(s)[i]; }
    StreamLength(CompletedOf(s));
  }

  /** Adds up token lengths without writing. */
  class NvrMeasurer {
    const state: NvrState
    var byteLen: U32

    ghost predicate Valid()
      reads this, state
    {
      state.Valid() && byteLen == |TokensBytes(state.Completed())|
    }

    constructor (mode: Mode)
      ensures Valid() && fresh(state) && state.mode == mode && state.seen == []
    {
      state := new NvrState(mode);
      byteLen := 0;
    }

    method Observe(symbol: Symbol) returns (r: Result<()>)
      requires Valid()
      modifies this, state
      ensures Valid()
      ensures r.Ok? <==> old(|state.seen|) < MAX_SECTION_ROWS && (state.mode.Timestamps? ==> !symbol.Null?)
      ensures state.seen == old(state.seen) + (if r.Ok? then [symbol] else [])
    {
      ghost var done := state.Completed();
      var token :- state.Observe(symbol);
      if token.Some? {
        CompletedTokens(state.seen, token.value) by {
          assert state.Completed()[|done|] == token.value;
        }
        var length := TokenLen(token.value);
        BytesSnoc(done, token.value);
        StreamFitsU32(state.seen);
        byteLen := byteLen + length.value;
      }
      return Ok(());
    }

    method Finish() returns (r: Result<Plan>)
      requires Valid()
      modifies this
      ensures r.Ok? <==> state.seen != []
      ensures r.Ok? ==> r.value == PlanOf(state.seen)
    {
      hide TokensBytes, TokenBytes, Tokens, NullCount, CompletedOf, PendingOf, Token.Valid;
      var last :- state.Finish();
      var (token, facts, nulls) := last;
      CompletedTokens(state.seen, token);
      PositivePayload(token);
      var length := TokenLen(token);
      BytesSnoc(state.Completed(), token);
      StreamFitsU32(state.seen);
      byteLen := byteLen + length.value;
      return Ok(Plan(byteLen, facts, nulls));
    }
  }

  /** Writes tokens into a caller's buffer as they complete. */
  class NvrEncoder {
    const state: NvrState
    const output: array<Byte>
    var offset: nat

    ghost predicate Valid()
      reads this, state, output
    {
      && state.Valid()
      && offset <= output.Length
      && output[..offset] == TokensBytes(state.Completed())
    }

    constructor (mode: Mode, output: array<Byte>)
      ensures Valid() && fresh(state) && this.output == output
      ensures state.mode == mode && state.seen == []
    {
      state := new NvrState(mode);
      this.output := output;
      offset := 0;
    }

    method Observe(symbol: Symbol) returns (r: Result<()>)
      requires Valid()
      modifies this, state, output
      ensures r.Ok? ==> Valid() && state.seen == old(state.seen) + [symbol]
      ensures r.Ok? <==> old(|state.seen|) < MAX_SECTION_ROWS && (state.mode.Timestamps? ==> !symbol.Null?)
                         && |TokensBytes(CompletedOf(old(state.seen) + [symbol]))| <= output.Length
    {
      ghost var done := state.Completed();
      var token :- state.Observe(symbol);
      if token.Some? {
        CompletedTokens(state.seen, token.value) by {
          assert state.Completed()[|done|] == token.value;
        }
        BytesSnoc(done, token.value);
        offset :- WriteToken(token.value, output, offset);
      }
      return Ok(());
    }

    method Finish() returns (r: Result<(Plan, nat)>)
      requires Valid()
      modifies this, output
      ensures r.Ok? <==> state.seen != [] && |Encode(state.seen)| <= output.Length
      ensures r.Ok? ==> r.value == (PlanOf(state.seen), |Encode(state.seen)|)
      ensures r.Ok? ==> output[..|Encode(state.seen)|] == Encode(state.seen)
    {
      hide TokensBytes, TokenBytes, Tokens, NullCount, CompletedOf, PendingOf, Token.Valid;
      var last :- state.Finish();
      var (token, facts, nulls) := last;
      CompletedTokens(state.seen, token);
      PositivePayload(token);
      BytesSnoc(state.Completed(), token);
      offset :- WriteToken(token, output, offset);
      return Ok((Plan(offset, facts, nulls), offset));
    }
  }

  method Measure(symbols: seq<Symbol>, mode: Mode) returns (r: Result<Plan>)
    ensures r.Ok? <==> Legal(symbols, mode)
    ensures r.Ok? ==> r.value == PlanOf(symbols)
  {
    hide Tokens, TokensBytes, TokenBytes, NullCount, NvrMeasurer.Valid, NvrState.Valid, PlanOf, Encode;
    NullCountBound(symbols);
    var measurer := new NvrMeasurer(mode);
    for i := 0 to |symbols|
      invariant measurer.Valid() && fresh(measurer) && fresh(measurer.state)
      invariant measurer.state.mode == mode && measurer.state.seen == symbols[..i]
      invariant i <= MAX_SECTION_ROWS && (mode.Timestamps? ==> forall j | 0 <= j < i :: !symbols[j].Null?)
    {
      assert symbols[..i + 1] == symbols[..i] + [symbols[i]];
      var step := measurer.Observe(symbols[i]);
      if step.Err? {
        return Err(step.error);
      }
    }
    assert symbols[..|symbols|] == symbols;
    r := measurer.Finish();
  }

  /** Writes exactly `Encode(symbols)` whenever the plan and the buffer fit it. */
  method EncodeInto(symbols: seq<Symbol>, mode: Mode, plan: Plan, output: array<Byte>) returns (r: Result<nat>)
    modifies output
    ensures r.Ok? <==> Legal(symbols, mode) && plan == PlanOf(symbols) && output.Length == plan.byteLen
    ensures r.Ok? ==> r.value == output.Length && output[..] == Encode(symbols)
  {
    hide Tokens, TokensBytes, TokenBytes, NullCount, NvrState.Valid, CompletedOf, PendingOf;
    var measured :- Measure(symbols, mode);
    if measured != plan { return Err(Corruption); }
    if output.Length != plan.byteLen { return Err(Invalid); }
    var encoder := new NvrEncoder(mode, output);
    for i := 0 to |symbols|
      invariant encoder.Valid() && fresh(encoder) && fresh(encoder.state)
      invariant encoder.output == output && encoder.state.mode == mode
      invariant encoder.state.seen == symbols[..i]
    {
      assert symbols[..i + 1] == symbols[..i] + [symbols[i]];
      NullCountBound(symbols);
      PrefixLength(symbols, i + 1);
      var step := encoder.Observe(symbols[i]);
      assert step.Ok?;
    }
    assert symbols[..|symbols|] == symbols;
    var finished := encoder.Finish();
    // Measuring and writing agree, so the written length is the planned one.
    var written := finished.value.1;
    assert output[..] == output[..written];
    return Ok(written);
  }

  // What is completed after a prefix of the stream never outgrows the whole stream.
  lemma {:induction false} PrefixLength(s: seq<Symbol>, i: nat)
    requires i <= |s|
    ensures |TokensBytes(CompletedOf(s[..i]))| <= |Encode(s)|
    decreases |s| - i
  {
    hide *;
    if i == |s| {
      assert s[..i] == s;
      WholeStream(s);
    } else {
      PrefixLength(s, i + 1);
      assert s[..i + 1] == s[..i] + [s[i]];
      CompletedGrows(s[..i], s[i]);
    }
  }

  lemma WholeStream(s: seq<Symbol>)
    ensures |TokensBytes(CompletedOf(s))| <= |Encode(s)|
  {
    CompletedShorter(Tokens(s));
    hide Tokens, TokensBytes;
    if Tokens(s) == [] { NoTokensBytes(); }
  }

  lemma NoTokensBytes()
    ensures TokensBytes([]) == []
  {
  }

  lemma CompletedGrows(s: seq<Symbol>, x: Symbol)
    ensures |TokensBytes(CompletedOf(s))| <= |TokensBytes(CompletedOf(s + [x]))|
  {
    hide *;
    ObserveStep(s, x);
    if CompletedOf(s + [x]) != CompletedOf(s) {
      CompletedShorter(CompletedOf(s + [x]));
      assert CompletedOf(s + [x])[..|CompletedOf(s + [x])| - 1] == CompletedOf(s);
    }
  }

  lemma CompletedShorter(ts: seq<Token>)
    ensures ts != [] ==> |TokensBytes(ts[..|ts| - 1])| <= |TokensBytes(ts)|
  {
  }
}
