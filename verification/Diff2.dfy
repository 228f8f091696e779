/**
 Column predictors: second differences for integers, XOR for float bits.

 `EncodeStep` and `DecodeStep` are the two sides of one predictor step; they are
 inverse to each other on every reachable state, so whole columns are too.
 */
module Diff2 {
  import opened Prelude
  import opened Bitwise
  import Nvr

  datatype Kind = Unsigned(maximum: U64) | Timestamps
  datatype Value = Null | Number(value: int)
  datatype Memory = Memory(value: Option<int>, delta: Option<int>)

  const START := Memory(None, None)

  predicate InI128(x: int) { I128_MIN <= x <= I128_MAX }

  function Low(kind: Kind): int { if kind.Timestamps? then I64_MIN else 0 }
  function High(kind: Kind): int { if kind.Timestamps? then I64_MAX else kind.maximum }
  predicate InDomain(kind: Kind, x: int) { Low(kind) <= x <= High(kind) }

  // What a column of this kind may hold: in-domain numbers, and nulls unless timestamps.
  predicate Storable(kind: Kind, v: Value) {
    match v case Null => kind.Unsigned? case Number(x) => InDomain(kind, x)
  }

  /** Predictor memory after any run: an in-domain value, and a difference of two such. */
  predicate Reachable(kind: Kind, m: Memory) {
    && (m.value.Some? ==> InDomain(kind, m.value.value))
    && (m.delta.Some? ==> m.value.Some? && InDomain(kind, m.value.value - m.delta.value))
  }

  function Zigzag(x: int): Option<U64> {
    var e := if x >= 0 then 2 * x else -2 * x - 1;
    if e <= U64_MAX then Some(e) else None
  }

  function Unzigzag(e: U64): int { if e % 2 == 0 then e / 2 else -(e / 2 + 1) }

  lemma ZigzagInverse(x: int, e: U64)
    ensures Zigzag(x) == Some(e) <==> Unzigzag(e) == x
  {
  }

  function EncodeStep(kind: Kind, m: Memory, v: Value): Option<(Memory, Nvr.Symbol)> {
    match v
    case Null => Some((m, Nvr.Null))
    case Number(x) =>
      if m.value.None? then
        var e := if kind.Timestamps? then Zigzag(x) else if 0 <= x <= U64_MAX then Some(x) else None;
        if e.None? then None else Some((Memory(Some(x), None), Nvr.Value(e.value)))
      else
        var delta := x - m.value.value;
        var predicted := if m.delta.Some? then delta - m.delta.value else delta;
        if !InI128(delta) || !InI128(predicted) || !InI128(2 * predicted) then None else
        var e := Zigzag(predicted);
        if e.None? then None else Some((Memory(Some(x), Some(delta)), Nvr.Value(e.value)))
  }

  function DecodeStep(kind: Kind, m: Memory, s: Nvr.Symbol): Result<(Memory, Value)> {
    match s
    case Null => if kind.Timestamps? then Err(Corruption) else Ok((m, Null))
    case Value(e) =>
      if m.value.None? then
        var x := if kind.Timestamps? then Unzigzag(e) else e;
        if !InDomain(kind, x) then Err(Corruption) else Ok((Memory(Some(x), None), Number(x)))
      else
        var delta := if m.delta.Some? then m.delta.value + Unzigzag(e) else Unzigzag(e);
        if !InI128(delta) then Err(Corruption) else
        var x := m.value.value + delta;
        if !InI128(x) || !InDomain(kind, x) then Err(Corruption)
        else Ok((Memory(Some(x), Some(delta)), Number(x)))
  }

  /** One step decodes to `v` exactly when encoding `v` there produced the symbol. */
  lemma StepInverse(kind: Kind, m: Memory, m': Memory, v: Value, s: Nvr.Symbol)
    requires Reachable(kind, m)
    ensures DecodeStep(kind, m, s) == Ok((m', v)) <==> Storable(kind, v) && EncodeStep(kind, m, v) == Some((m', s))
    ensures DecodeStep(kind, m, s) == Ok((m', v)) ==> Reachable(kind, m')
  {
    if s.Value? && v.Number? {
      if m.value.None? {
        FirstInverse(kind, m, m', v.value, s.value);
      } else {
        NextInverse(kind, m, m', v.value, s.value);
      }
    }
  }

  lemma FirstInverse(kind: Kind, m: Memory, m': Memory, x: int, e: U64)
    requires Reachable(kind, m) && m.value.None?
    ensures DecodeStep(kind, m, Nvr.Value(e)) == Ok((m', Number(x))) <==>
            InDomain(kind, x) && EncodeStep(kind, m, Number(x)) == Some((m', Nvr.Value(e)))
  {
    ZigzagInverse(x, e);
    hide Zigzag, Unzigzag;
  }

  lemma NextInverse(kind: Kind, m: Memory, m': Memory, x: int, e: U64)
    requires Reachable(kind, m) && m.value.Some?
    ensures DecodeStep(kind, m, Nvr.Value(e)) == Ok((m', Number(x))) <==>
            InDomain(kind, x) && EncodeStep(kind, m, Number(x)) == Some((m', Nvr.Value(e)))
    ensures DecodeStep(kind, m, Nvr.Value(e)) == Ok((m', Number(x))) ==> Reachable(kind, m')
  {
    var delta := x - m.value.value;
    ZigzagInverse(if m.delta.Some? then delta - m.delta.value else delta, e);
    ZigzagRange(e);
    hide Zigzag, Unzigzag;
  }

  lemma ZigzagRange(e: U64)
    ensures I64_MIN <= Unzigzag(e) <= I64_MAX
  {
  }

  /** On reachable memory no 128-bit check can fire: decoding fails only on the domain. */
  lemma DecodeNeverOverflows(kind: Kind, m: Memory, e: U64)
    requires Reachable(kind, m)
    ensures m.value.Some? ==>
      var delta := (if m.delta.Some? then m.delta.value else 0) + Unzigzag(e);
      && InI128(delta) && InI128(m.value.value + delta)
      && (DecodeStep(kind, m, Nvr.Value(e)).Ok? <==> InDomain(kind, m.value.value + delta))
  {
  }

  // The second difference leaves the 64-bit zigzag range.
  predicate TooFar(m: Memory, x: int) {
    m.value.Some? && !(I64_MIN <= x - m.value.value - (if m.delta.Some? then m.delta.value else 0) <= I64_MAX)
  }

  /** Encoding gives up exactly when the second difference is too large. */
  lemma EncodeAvailability(kind: Kind, m: Memory, x: int)
    requires Reachable(kind, m) && InDomain(kind, x)
    ensures EncodeStep(kind, m, Number(x)).None? <==> TooFar(m, x)
  {
  }

  // ---------------------------------------------------------- whole columns

  function Encode(kind: Kind, m: Memory, vs: seq<Value>): Option<seq<Nvr.Symbol>>
    decreases |vs|
  {
    if vs == [] then Some([]) else
    match EncodeStep(kind, m, vs[0])
    case None => None
    case Some((m', s)) => match Encode(kind, m', vs[1..])
      case None => None
      case Some(rest) => Some([s] + rest)
  }

  function Decode(kind: Kind, m: Memory, ss: seq<Nvr.Symbol>): Result<seq<Value>>
    decreases |ss|
  {
    if ss == [] then Ok([]) else
    var (m', v) :- DecodeStep(kind, m, ss[0]);
    var rest :- Decode(kind, m', ss[1..]);
    Ok([v] + rest)
  }

  /** Columns round-trip in both directions: neither side has a second preimage. */
  lemma {:induction false} ColumnInverse(kind: Kind, m: Memory, vs: seq<Value>, ss: seq<Nvr.Symbol>)
    requires Reachable(kind, m)
    ensures Decode(kind, m, ss) == Ok(vs) <==>
            (forall i | 0 <= i < |vs| :: Storable(kind, vs[i])) && Encode(kind, m, vs) == Some(ss)
    decreases |vs|
  {
    if vs == [] || ss == [] {
    } else {
      hide EncodeStep, DecodeStep, Storable, Reachable;
      assert vs == [vs[0]] + vs[1..] && ss == [ss[0]] + ss[1..];
      match DecodeStep(kind, m, ss[0]) {
        case Ok((m', v)) =>
          StepInverse(kind, m, m', v, ss[0]);
          if v == vs[0] {
            ColumnInverse(kind, m', vs[1..], ss[1..]);
            assert forall i | 0 <= i < |vs| - 1 :: vs[1..][i] == vs[i + 1];
          } else if Storable(kind, vs[0]) {
            match EncodeStep(kind, m, vs[0]) {
              case Some((n, t)) => StepInverse(kind, m, n, vs[0], ss[0]);
              case None =>
            }
          }
        case Err(_) =>
          match EncodeStep(kind, m, vs[0]) {
            case Some((n, t)) => StepInverse(kind, m, n, vs[0], ss[0]);
            case None =>
          }
      }
    }
  }

  function NotNull(vs: seq<Value>): seq<Value> {
    if vs == [] then [] else (if vs[0].Null? then [] else [vs[0]]) + NotNull(vs[1..])
  }

  function SymbolsNotNull(ss: seq<Nvr.Symbol>): seq<Nvr.Symbol> {
    if ss == [] then [] else (if ss[0].Null? then [] else [ss[0]]) + SymbolsNotNull(ss[1..])
  }

  /** Nulls do not move the predictor: dropping them commutes with encoding. */
  lemma {:induction false} NullsTransparent(kind: Kind, m: Memory, vs: seq<Value>)
    ensures Encode(kind, m, NotNull(vs)).Some? <==> Encode(kind, m, vs).Some?
    ensures Encode(kind, m, vs).Some? ==>
      Encode(kind, m, NotNull(vs)).value == SymbolsNotNull(Encode(kind, m, vs).value)
    decreases |vs|
  {
    if vs != [] {
      var rest := NotNull(vs[1..]);
      if vs[0].Null? {
        NullsTransparent(kind, m, vs[1..]);
        assert NotNull(vs) == rest;
        assert Encode(kind, m, vs).Some? ==> Encode(kind, m, vs).value[1..] == Encode(kind, m, vs[1..]).value;
      } else {
        assert NotNull(vs) == [vs[0]] + rest;
        if EncodeStep(kind, m, vs[0]).Some? {
          NullsTransparent(kind, EncodeStep(kind, m, vs[0]).value.0, vs[1..]);
          StepNull(kind, m, vs[0]);
          hide EncodeStep, NotNull;
          EncodeOne(kind, m, vs[0], rest);
          EncodeOne(kind, m, vs[0], vs[1..]);
          assert vs == [vs[0]] + vs[1..];
          hide Encode;
          assert Encode(kind, m, vs).Some? ==>
            Encode(kind, m, vs).value[1..] == Encode(kind, EncodeStep(kind, m, vs[0]).value.0, vs[1..]).value;
        }
      }
    }
  }

  lemma EncodeOne(kind: Kind, m: Memory, v: Value, vs: seq<Value>)
    requires EncodeStep(kind, m, v).Some?
    ensures var (m', s) := EncodeStep(kind, m, v).value;
            Encode(kind, m, [v] + vs) ==
                match Encode(kind, m', vs) case None => None case Some(rest) => Some([s] + rest)
  {
    hide EncodeStep;
    assert ([v] + vs)[1..] == vs;
  }

  lemma {:induction false} EncodeLength(kind: Kind, m: Memory, vs: seq<Value>)
    requires Encode(kind, m, vs).Some?
    ensures |Encode(kind, m, vs).value| == |vs|
    ensures forall i | 0 <= i < |vs| :: Encode(kind, m, vs).value[i].Null? <==> vs[i].Null?
    decreases |vs|
  {
    if vs != [] {
      var (m', s) := EncodeStep(kind, m, vs[0]).value;
      EncodeLength(kind, m', vs[1..]);
      hide EncodeStep, Encode;
      EncodeCons(kind, m, vs);
      assert s.Null? <==> vs[0].Null? by { StepNull(kind, m, vs[0]); }
    }
  }

  lemma StepNull(kind: Kind, m: Memory, v: Value)
    ensures EncodeStep(kind, m, v).Some? ==> (EncodeStep(kind, m, v).value.1.Null? <==> v.Null?)
  {
  }

  lemma EncodeCons(kind: Kind, m: Memory, vs: seq<Value>)
    requires vs != [] && Encode(kind, m, vs).Some?
    ensures EncodeStep(kind, m, vs[0]).Some? && Encode(kind, EncodeStep(kind, m, vs[0]).value.0, vs[1..]).Some?
    ensures Encode(kind, m, vs).value ==
            [EncodeStep(kind, m, vs[0]).value.1] + Encode(kind, EncodeStep(kind, m, vs[0]).value.0, vs[1..]).value
  {
    hide EncodeStep;
  }

  // ------------------------------------------------------------ the coders

  datatype Preprocessed = Symbol(symbol: Nvr.Symbol) | Unavailable

  /** The encoding predictor: once a value cannot be represented it stays unavailable. */
  class Diff2Encoder {
    const kind: Kind
    var previousValue: Option<int>
    var previousDelta: Option<int>
    var available: bool

    ghost predicate Valid()
      reads this
    {
      Reachable(kind, Now())
    }

    function Now(): Memory
      reads this
    {
      Memory(previousValue, previousDelta)
    }

    constructor (kind: Kind)
      ensures Valid() && this.kind == kind && Now() == START && available
    {
      this.kind := kind;
      previousValue, previousDelta, available := None, None, true;
    }

    method Observe(value: Value) returns (r: Result<Preprocessed>)
      requires Valid()
      modifies this
      ensures Valid()
      ensures r.Err? <==> old(available) && !Storable(kind, value)
      ensures r.Err? || !old(available) ==> unchanged(this)
      ensures r.Ok? && !old(available) ==> r.value == Unavailable
      ensures r.Ok? && old(available) ==>
        match EncodeStep(kind, old(Now()), value)
        case None => r.value == Unavailable && !available && Now() == old(Now())
        case Some((m, s)) => r.value == Symbol(s) && available && Now() == m
      ensures r.Ok? && old(available) && value.Number? ==> (r.value == Unavailable <==> TooFar(old(Now()), value.value))
    {
      if !available { return Ok(Unavailable); }
      if !Storable(kind, value) { return Err(Invalid); }
      if value.Null? { return Ok(Symbol(Nvr.Null)); }
      EncodeAvailability(kind, Now(), value.value);
      var x := value.value;
      var encoded: Option<U64>;
      if previousValue.None? {
        encoded := if kind.Timestamps? then Zigzag(x) else Some(x);
        if encoded.Some? { previousValue := Some(x); }
      } else {
        var delta := x - previousValue.value;
        var predicted := if previousDelta.Some? then delta - previousDelta.value else delta;
        // Both subtractions stay far inside 128 bits, so neither can be refused.
        assert InI128(delta) && InI128(2 * predicted);
        encoded := Zigzag(predicted);
        if encoded.Some? { previousValue, previousDelta := Some(x), Some(delta); }
      }
      if encoded.None? {
        available := false;
        return Ok(Unavailable);
      }
      return Ok(Symbol(Nvr.Value(encoded.value)));
    }
  }

  /** The decoding predictor. */
  class Diff2Decoder {
    const kind: Kind
    var previousValue: Option<int>
    var previousDelta: Option<int>

    ghost predicate Valid()
      reads this
    {
      Reachable(kind, Now())
    }

    function Now(): Memory
      reads this
    {
      Memory(previousValue, previousDelta)
    }

    constructor (kind: Kind)
      ensures Valid() && this.kind == kind && Now() == START
    {
      this.kind := kind;
      previousValue, previousDelta := None, None;
    }

    method DecodeSymbol(symbol: Nvr.Symbol) returns (r: Result<Value>)
      requires Valid()
      modifies this
      ensures Valid()
      ensures match DecodeStep(kind, old(Now()), symbol)
              case Ok((m, v)) => r == Ok(v) && Now() == m
              case Err(_) => r.Err? && Now() == old(Now())
    {
      if symbol.Null? {
        if kind.Timestamps? { return Err(Corruption); }
        return Ok(Null);
      }
      var encoded := symbol.value;
      if previousValue.None? {
        var x := if kind.Timestamps? then Unzigzag(encoded) else encoded;
        if !InDomain(kind, x) { return Err(Corruption); }
        previousValue := Some(x);
        return Ok(Number(x));
      }
      DecodeNeverOverflows(kind, Now(), encoded);
      var predicted := Unzigzag(encoded);
      var delta := if previousDelta.Some? then previousDelta.value + predicted else predicted;
      var x := previousValue.value + delta;
      if !InDomain(kind, x) { return Err(Corruption); }
      previousValue, previousDelta := Some(x), Some(delta);
      return Ok(Number(x));
    }
  }

  // ------------------------------------------------------------------- XOR

  datatype Bits = NoBits | Bits(bits: U32)

  // XOR against the previous float; the first one stands for itself.
  function XorStep(previous: Option<U32>, b: Bits): (r: (Option<U32>, Nvr.Symbol)) {
    match b
    case NoBits => (previous, Nvr.Null)
    case Bits(x) =>
      (Some(x),
       if previous.None? then Nvr.Value(x) else (XorFits(previous.value, x); Nvr.Value(Xor(previous.value, x))))
  }

  function UnxorStep(previous: Option<U32>, s: Nvr.Symbol): Result<(Option<U32>, Bits)> {
    match s
    case Null => Ok((previous, NoBits))
    case Value(e) =>
      if e > U32_MAX then Err(Corruption) else
      var x := if previous.None? then e else (XorFits(previous.value, e); Xor(previous.value, e));
      Ok((Some(x), Bits(x)))
  }

  lemma XorStepInverse(previous: Option<U32>, next: Option<U32>, b: Bits, s: Nvr.Symbol)
    ensures UnxorStep(previous, s) == Ok((next, b)) <==> XorStep(previous, b) == (next, s)
  {
    if previous.Some? {
      if b.Bits? { XorCancels(previous.value, b.bits); }
      if s.Value? {
        XorCancels(previous.value, s.value);
        if b.Bits? { XorFits(previous.value, b.bits); }
      }
    }
  }

  function XorEncode(previous: Option<U32>, bs: seq<Bits>): seq<Nvr.Symbol>
    decreases |bs|
  {
    if bs == [] then [] else
    var (next, s) := XorStep(previous, bs[0]);
    [s] + XorEncode(next, bs[1..])
  }

  function XorDecode(previous: Option<U32>, ss: seq<Nvr.Symbol>): Result<seq<Bits>>
    decreases |ss|
  {
    if ss == [] then Ok([]) else
    var (next, b) :- UnxorStep(previous, ss[0]);
    var rest :- XorDecode(next, ss[1..]);
    Ok([b] + rest)
  }

  /** Float columns round-trip in both directions. */
  lemma {:induction false} XorColumnInverse(previous: Option<U32>, bs: seq<Bits>, ss: seq<Nvr.Symbol>)
    ensures XorDecode(previous, ss) == Ok(bs) <==> XorEncode(previous, bs) == ss
    decreases |bs|
  {
    if bs == [] || ss == [] {
    } else {
      hide XorStep, UnxorStep;
      assert bs == [bs[0]] + bs[1..] && ss == [ss[0]] + ss[1..];
      var (next, s) := XorStep(previous, bs[0]);
      XorStepInverse(previous, next, bs[0], ss[0]);
      XorColumnInverse(next, bs[1..], ss[1..]);
      match UnxorStep(previous, ss[0]) {
        case Ok((n, b)) => XorStepInverse(previous, n, b, ss[0]);
        case Err(_) =>
      }
    }
  }

  class XorEncoder {
    var previous: Option<U32>

    constructor ()
      ensures previous == None
    {
      previous := None;
    }

    method Observe(value: Bits) returns (s: Nvr.Symbol)
      modifies this
      ensures (previous, s) == XorStep(old(previous), value)
    {
      if value.NoBits? { return Nvr.Null; }
      var bits := value.bits;
      var encoded := bits;
      if previous.Some? {
        XorFits(previous.value, bits);
        encoded := Xor(previous.value, bits);
      }
      previous := Some(bits);
      return Nvr.Value(encoded);
    }
  }

  class XorDecoder {
    var previous: Option<U32>

    constructor ()
      ensures previous == None
    {
      previous := None;
    }

    method DecodeSymbol(symbol: Nvr.Symbol) returns (r: Result<Bits>)
      modifies this
      ensures match UnxorStep(old(previous), symbol)
              case Ok((next, b)) => r == Ok(b) && previous == next
              case Err(_) => r.Err? && previous == old(previous)
    {
      if symbol.Null? { return Ok(NoBits); }
      if symbol.value > U32_MAX { return Err(Corruption); }
      var bits := symbol.value;
      if previous.Some? {
        XorFits(previous.value, bits);
        bits := Xor(previous.value, bits);
      }
      previous := Some(bits);
      return Ok(Bits(bits));
    }
  }
}
