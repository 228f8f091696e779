/**
 Column encoding: predictor plus NVR competes with the fixed layout, the smaller
 one is stored and ties go to the fixed layout.
 */
module Selector {
  import opened Prelude
  import opened Cells
  import Nvr
  import NvrEncoding
  import NvrDecoding
  import Bitwise
  import Diff2
  import Fixed
  import FixedCoding

  datatype Encoding = FixedEncoding | NvrEncoding {
    function Tag(): Byte { if FixedEncoding? then 0 else 1 }
  }

  datatype Selection = Selection(encoding: Encoding, fixed: FixedCoding.Plan, nvr: Option<Nvr.Plan>)

  // The integer predictor of a value type: its logical domain.
  function IntegerKind(kind: ValueType): Diff2.Kind {
    if kind.Sq1Type? then Diff2.Unsigned(254) else Diff2.Unsigned(U64_MAX)
  }

  function NumberOf(c: Cell): Diff2.Value {
    match c
    case UInt(v) => Diff2.Number(v)
    case Sq1(v) => Diff2.Number(v)
    case _ => Diff2.Null
  }

  function CellOf(kind: ValueType, v: Diff2.Value): Cell {
    match v
    case Null => Null
    case Number(x) =>
      if kind.Sq1Type? then (if 0 <= x <= 254 then Sq1(x) else Null)
      else if 0 <= x <= U64_MAX then UInt(x) else Null
  }

  function BitsOf(c: Cell): Diff2.Bits { if c.F32? then Diff2.Bits(c.bits) else Diff2.NoBits }
  function FloatOf(b: Diff2.Bits): Cell { if b.Bits? then F32(b.bits) else Null }

  function Numbers(cs: seq<Cell>): seq<Diff2.Value> { seq(|cs|, i requires 0 <= i < |cs| => NumberOf(cs[i])) }
  function Floats(cs: seq<Cell>): seq<Diff2.Bits> { seq(|cs|, i requires 0 <= i < |cs| => BitsOf(cs[i])) }

  /** The symbols a predictor turns a column into, unless one is unrepresentable. */
  function Symbols(kind: ValueType, cs: seq<Cell>): Option<seq<Nvr.Symbol>> {
    if kind.F32Type? then Some(Diff2.XorEncode(None, Floats(cs)))
    else Diff2.Encode(IntegerKind(kind), Diff2.START, Numbers(cs))
  }

  function Reconstruct(kind: ValueType, ss: seq<Nvr.Symbol>): Result<seq<Cell>> {
    if kind.F32Type? then
      var bs :- Diff2.XorDecode(None, ss);
      Ok(CellsOfBits(bs))
    else
      var vs :- Diff2.Decode(IntegerKind(kind), Diff2.START, ss);
      Ok(CellsOf(kind, vs))
  }

  function CellsOfBits(bs: seq<Diff2.Bits>): seq<Cell> { seq(|bs|, i requires 0 <= i < |bs| => FloatOf(bs[i])) }

  /** Prediction is invertible in both directions on every column of one type. */
  lemma PredictorInverse(kind: ValueType, cs: seq<Cell>, ss: seq<Nvr.Symbol>)
    ensures Reconstruct(kind, ss) == Ok(cs) <==> Typed(kind, cs) && Symbols(kind, cs) == Some(ss)
  {
    if kind.F32Type? { FloatInverse(cs, ss); } else { IntegerInverse(kind, cs, ss); }
  }

  lemma FloatInverse(cs: seq<Cell>, ss: seq<Nvr.Symbol>)
    ensures Reconstruct(F32Type, ss) == Ok(cs) <==> Typed(F32Type, cs) && Symbols(F32Type, cs) == Some(ss)
  {
    Diff2.XorColumnInverse(None, Floats(cs), ss);
    var decoded := Diff2.XorDecode(None, ss);
    hide Diff2.XorDecode, Diff2.XorEncode;
    if decoded.Ok? {
      var bs := decoded.value;
      var back := CellsOfBits(bs);
      assert Typed(F32Type, back);
      assert Floats(back) == bs;
      if Typed(F32Type, cs) && bs == Floats(cs) { assert back == cs; }
    }
  }

  lemma IntegerInverse(kind: ValueType, cs: seq<Cell>, ss: seq<Nvr.Symbol>)
    requires !kind.F32Type?
    ensures Reconstruct(kind, ss) == Ok(cs) <==> Typed(kind, cs) && Symbols(kind, cs) == Some(ss)
  {
    var k := IntegerKind(kind);
    var vs := Numbers(cs);
    Diff2.ColumnInverse(k, Diff2.START, vs, ss);
    StorableNumbers(kind, cs);
    var decoded := Diff2.Decode(k, Diff2.START, ss);
    hide Diff2.Decode, Diff2.Encode, Numbers, Typed, Diff2.Storable;
    if decoded.Ok? {
      Diff2.ColumnInverse(k, Diff2.START, decoded.value, ss);
      CellsOfNumbers(kind, decoded.value, cs);
    }
  }

  lemma StorableNumbers(kind: ValueType, cs: seq<Cell>)
    requires !kind.F32Type?
    ensures Typed(kind, cs) ==> forall i | 0 <= i < |Numbers(cs)| :: Diff2.Storable(IntegerKind(kind), Numbers(cs)[i])
  {
  }

  function CellsOf(kind: ValueType, vs: seq<Diff2.Value>): seq<Cell> {
    seq(|vs|, i requires 0 <= i < |vs| => CellOf(kind, vs[i]))
  }

  lemma CellsOfNumbers(kind: ValueType, vs: seq<Diff2.Value>, cs: seq<Cell>)
    requires !kind.F32Type? && forall i | 0 <= i < |vs| :: Diff2.Storable(IntegerKind(kind), vs[i])
    ensures CellsOf(kind, vs) == cs <==> Typed(kind, cs) && Numbers(cs) == vs
  {
    var back := CellsOf(kind, vs);
    forall i | 0 <= i < |vs| ensures Matches(kind, back[i]) && NumberOf(back[i]) == vs[i] { }
    assert Numbers(back) == vs;
    if Typed(kind, cs) && vs == Numbers(cs) {
      forall i | 0 <= i < |cs| ensures back[i] == cs[i] { assert Matches(kind, cs[i]); }
    }
  }

  /** Symbols mirror the column: same length, nulls at the same places. */
  lemma SymbolShape(kind: ValueType, cs: seq<Cell>)
    requires Typed(kind, cs) && Symbols(kind, cs).Some?
    ensures |Symbols(kind, cs).value| == |cs|
    ensures Nvr.NullCount(Symbols(kind, cs).value) == NullCount(cs)
  {
    var ss := Symbols(kind, cs).value;
    if kind.F32Type? {
      XorShape(None, Floats(cs));
      assert forall i | 0 <= i < |cs| :: ss[i].Null? <==> cs[i].Null?;
    } else {
      Diff2.EncodeLength(IntegerKind(kind), Diff2.START, Numbers(cs));
      assert forall i | 0 <= i < |cs| :: ss[i].Null? <==> cs[i].Null?;
    }
    hide *;
    SameNulls(ss, cs);
  }

  lemma {:induction false} XorShape(previous: Option<U32>, bs: seq<Diff2.Bits>)
    ensures |Diff2.XorEncode(previous, bs)| == |bs|
    ensures forall i | 0 <= i < |bs| :: Diff2.XorEncode(previous, bs)[i].Null? <==> bs[i].NoBits?
    decreases |bs|
  {
    if bs != [] {
      var (next, s) := Diff2.XorStep(previous, bs[0]);
      XorShape(next, bs[1..]);
      hide Bitwise.Xor;
      assert Diff2.XorEncode(previous, bs)[1..] == Diff2.XorEncode(next, bs[1..]);
      assert forall i | 1 <= i < |bs| :: Diff2.XorEncode(previous, bs)[i] == Diff2.XorEncode(next, bs[1..])[i - 1];
    }
  }

  lemma {:induction false} SameNulls(ss: seq<Nvr.Symbol>, cs: seq<Cell>)
    requires |ss| == |cs| && forall i | 0 <= i < |cs| :: ss[i].Null? <==> cs[i].Null?
    ensures Nvr.NullCount(ss) == NullCount(cs)
  {
    if cs != [] {
      var n := |cs| - 1;
      SameNulls(ss[..n], cs[..n]);
      assert cs == cs[..n] + [cs[n]];
      NullCountSnoc(cs[..n], cs[n]);
    }
  }

  // ------------------------------------------------------------- the choice

  function NvrBytes(kind: ValueType, cs: seq<Cell>): Option<seq<Byte>> {
    match Symbols(kind, cs) case None => None case Some(ss) => Some(Nvr.Encode(ss))
  }

  function Chosen(kind: ValueType, cs: seq<Cell>): Encoding {
    if NvrBytes(kind, cs).Some? && |NvrBytes(kind, cs).value| < |Fixed.Encode(kind, cs)| then NvrEncoding
    else FixedEncoding
  }

  /** The stored bytes of a column. */
  function Stored(kind: ValueType, cs: seq<Cell>): seq<Byte> {
    if Chosen(kind, cs).NvrEncoding? then NvrBytes(kind, cs).value else Fixed.Encode(kind, cs)
  }

  function SelectionOf(kind: ValueType, cs: seq<Cell>): Selection {
    Selection(Chosen(kind, cs), FixedCoding.PlanOf(kind, cs),
              match Symbols(kind, cs) case None => None case Some(ss) => Some(NvrEncoding.PlanOf(ss)))
  }

  /** The stored form is never longer than either candidate; ties keep the fixed layout. */
  lemma StoredIsSmallest(kind: ValueType, cs: seq<Cell>)
    ensures |Stored(kind, cs)| <= |Fixed.Encode(kind, cs)|
    ensures NvrBytes(kind, cs).Some? ==> |Stored(kind, cs)| <= |NvrBytes(kind, cs).value|
    ensures Chosen(kind, cs).NvrEncoding? <==> |Stored(kind, cs)| < |Fixed.Encode(kind, cs)|
  {
    hide Fixed.Encode, Nvr.Encode, Symbols;
  }

  // A column that these directory fields and bytes stand for.
  ghost predicate ColumnDecodes(kind: ValueType, tag: Byte, bytes: seq<Byte>, facts: nat, nulls: nat, cs: seq<Cell>) {
    if tag == 0 then Fixed.Decodes(kind, bytes, facts, nulls, cs)
    else if tag == 1 then
      exists ss :: NvrDecoding.Decodes(bytes, Nvr.Values, facts, nulls, ss) && Reconstruct(kind, ss) == Ok(cs)
    else false
  }

  /** Storing then loading returns the column bit for bit, and nothing else can load. */
  lemma StoredRoundTrip(kind: ValueType, cs: seq<Cell>, ds: seq<Cell>)
    requires Fixed.Legal(kind, cs)
    ensures ColumnDecodes(kind, Chosen(kind, cs).Tag(), Stored(kind, cs), |cs|, NullCount(cs), ds) <==> ds == cs
  {
    if Chosen(kind, cs).NvrEncoding? {
      NvrRoundTrip(kind, cs, ds);
    } else {
      FixedRoundTrip(kind, cs, ds);
    }
  }

  lemma FixedRoundTrip(kind: ValueType, cs: seq<Cell>, ds: seq<Cell>)
    requires Fixed.Legal(kind, cs)
    ensures Fixed.Decodes(kind, Fixed.Encode(kind, cs), |cs|, NullCount(cs), ds) <==> ds == cs
  {
    Fixed.DecodeIff(kind, Fixed.Encode(kind, cs), |cs|, NullCount(cs), cs);
    Fixed.DecodeIff(kind, Fixed.Encode(kind, cs), |cs|, NullCount(cs), ds);
    hide Fixed.Encode, Fixed.Decode;
  }

  lemma NvrRoundTrip(kind: ValueType, cs: seq<Cell>, ds: seq<Cell>)
    requires Fixed.Legal(kind, cs) && Symbols(kind, cs).Some?
    ensures ColumnDecodes(kind, 1, Nvr.Encode(Symbols(kind, cs).value), |cs|, NullCount(cs), ds) <==> ds == cs
  {
    var ss := Symbols(kind, cs).value;
    var bytes := Nvr.Encode(ss);
    SymbolShape(kind, cs);
    PredictorInverse(kind, cs, ss);
    PredictorInverse(kind, ds, ss);
    hide Symbols, Reconstruct, Nvr.Encode, Nvr.NullCount, NullCount;
    assert NvrDecoding.Decodes(bytes, Nvr.Values, |cs|, NullCount(cs), ss);
    if ColumnDecodes(kind, 1, bytes, |cs|, NullCount(cs), ds) {
      var tt :| NvrDecoding.Decodes(bytes, Nvr.Values, |cs|, NullCount(cs), tt) && Reconstruct(kind, tt) == Ok(ds);
      Nvr.EncodeInjective(ss, tt);
    }
  }
}
