/** The selecting, writing and loading loops of columns, proved against `Selector`. */
module SelectorCoding {
  import opened Prelude
  import opened Cells
  import opened Prefixing
  import opened Selector
  import Nvr
  import NvrEncoding
  import NvrDecoding
  import Diff2
  import Fixed
  import FixedCoding
  import FixedDecoding

  // The symbols still to come from a predictor in this memory.
  function SymbolsFrom(kind: ValueType, m: Diff2.Memory, previous: Option<U32>,
                       cs: seq<Cell>): Option<seq<Nvr.Symbol>> {
    if kind.F32Type? then Some(Diff2.XorEncode(previous, Floats(cs)))
    else Diff2.Encode(IntegerKind(kind), m, Numbers(cs))
  }

  lemma IntegerFirst(kind: ValueType, m: Diff2.Memory, previous: Option<U32>, c: Cell, cs: seq<Cell>)
    requires !kind.F32Type? && Matches(kind, c)
    ensures Diff2.Storable(IntegerKind(kind), NumberOf(c))
    ensures SymbolsFrom(kind, m, previous, [c] + cs) ==
            match Diff2.EncodeStep(IntegerKind(kind), m, NumberOf(c))
            case None => None
            case Some((m', s)) => Prepend([s], SymbolsFrom(kind, m', previous, cs))
  {
    assert Numbers([c] + cs)[1..] == Numbers(cs);
    hide Diff2.EncodeStep;
  }

  lemma FloatFirst(m: Diff2.Memory, previous: Option<U32>, c: Cell, cs: seq<Cell>)
    requires Matches(F32Type, c)
    ensures var (next, s) := Diff2.XorStep(previous, BitsOf(c));
            SymbolsFrom(F32Type, m, previous, [c] + cs) == Prepend([s], SymbolsFrom(F32Type, m, next, cs))
  {
    assert Floats([c] + cs)[1..] == Floats(cs);
    hide Diff2.XorStep;
  }

  class Predictor {
    const kind: ValueType
    const integers: Diff2.Diff2Encoder
    const floats: Diff2.XorEncoder

    ghost predicate Valid()
      reads this, integers, floats
    {
      integers.Valid() && integers.kind == IntegerKind(kind)
    }

    // What the predictor would still emit.
    ghost function Rest(cs: seq<Cell>): Option<seq<Nvr.Symbol>>
      reads this, integers, floats
    {
      SymbolsFrom(kind, integers.Now(), floats.previous, cs)
    }

    constructor (kind: ValueType)
      ensures Valid() && this.kind == kind && integers.available && fresh(integers) && fresh(floats)
      ensures forall cs :: Rest(cs) == Symbols(kind, cs)
    {
      this.kind := kind;
      integers := new Diff2.Diff2Encoder(IntegerKind(kind));
      floats := new Diff2.XorEncoder();
    }

    method Observe(fact: Cell, ghost later: seq<Cell>) returns (r: Result<Diff2.Preprocessed>)
      requires Valid() && integers.available
      modifies integers, floats
      ensures Valid()
      ensures r.Ok? <==> Matches(kind, fact)
      ensures r.Ok? && r.value.Symbol? ==>
        integers.available && old(Rest([fact] + later)) == Prepend([r.value.symbol], Rest(later))
      ensures r.Ok? && r.value.Unavailable? ==> old(Rest([fact] + later)) == None
    {
      if !Matches(kind, fact) { return Err(Invalid); }
      if kind.F32Type? {
        FloatFirst(integers.Now(), floats.previous, fact, later);
        hide SymbolsFrom, Diff2.XorStep, Diff2.Reachable, BitsOf;
        var symbol := floats.Observe(BitsOf(fact));
        return Ok(Diff2.Symbol(symbol));
      }
      IntegerFirst(kind, integers.Now(), floats.previous, fact, later);
      hide SymbolsFrom, Diff2.EncodeStep, Diff2.Reachable, NumberOf, Diff2.Storable;
      r := integers.Observe(NumberOf(fact));
    }
  }

  lemma DropOne(cs: seq<Cell>, i: nat)
    requires i < |cs|
    ensures cs[i..] == [cs[i]] + cs[i + 1..] && cs[..i + 1] == cs[..i] + [cs[i]]
  {
  }

  lemma StartColumn(kind: ValueType, cs: seq<Cell>)
    ensures cs[0..] == cs && cs[..0] == [] && Prepend([], Symbols(kind, cs)) == Symbols(kind, cs)
  {
    hide Symbols;
    if Symbols(kind, cs).Some? { assert [] + Symbols(kind, cs).value == Symbols(kind, cs).value; }
  }

  lemma EndColumn(p: Predictor, cs: seq<Cell>, ss: seq<Nvr.Symbol>)
    requires Prepend(ss, p.Rest(cs[|cs|..])) == Symbols(p.kind, cs)
    ensures cs[..|cs|] == cs && Symbols(p.kind, cs) == Some(ss)
  {
    assert cs[|cs|..] == [] && Numbers([]) == [] && Floats([]) == [];
    assert ss + [] == ss;
  }

  lemma TypedSnoc(kind: ValueType, cs: seq<Cell>, i: nat)
    requires i < |cs| && Typed(kind, cs[..i])
    ensures Typed(kind, cs[..i + 1]) <==> Matches(kind, cs[i])
    ensures !Matches(kind, cs[i]) ==> !Typed(kind, cs)
  {
  }

  // Predictor and measurer after `i` facts: what was measured plus what is to come is the column.
  ghost predicate Measuring(p: Predictor, m: NvrEncoding.NvrMeasurer, facts: seq<Cell>, i: nat)
    reads p, p.integers, p.floats, m, m.state
  {
    && i <= |facts|
    && p.Valid() && p.integers.available && m.Valid() && m.state.mode == Nvr.Values
    && |m.state.seen| == i
    && Prepend(m.state.seen, p.Rest(facts[i..])) == Symbols(p.kind, facts)
  }

  /** Feeds one fact to the competing candidate; false once the column is unrepresentable. */
  method MeasureNext(p: Predictor, m: NvrEncoding.NvrMeasurer, facts: seq<Cell>, i: nat) returns (available: bool)
    requires Measuring(p, m, facts, i) && i < |facts| && i < Nvr.MAX_SECTION_ROWS && Matches(p.kind, facts[i])
    modifies p.integers, p.floats, m, m.state
    ensures available ==> Measuring(p, m, facts, i + 1)
    ensures !available ==> Symbols(p.kind, facts) == None
  {
    DropOne(facts, i);
    hide Symbols, Nvr.NullCount, NvrEncoding.NvrMeasurer.Valid, Predictor.Rest, Predictor.Valid, Prepend, Matches;
    var step := p.Observe(facts[i], facts[i + 1..]);
    if step.value.Unavailable? {
      PrependNone(m.state.seen);
      return false;
    }
    PrependSnoc(m.state.seen, step.value.symbol, p.Rest(facts[i + 1..]));
    var added := m.Observe(step.value.symbol);
    return true;
  }

  // Both candidates after `i` facts; the competing one is gone once it is unrepresentable.
  ghost predicate Observing(f: FixedCoding.FixedMeasurer, p: Predictor, m: NvrEncoding.NvrMeasurer?, facts: seq<Cell>,
                            i: nat)
    reads f, p, p.integers, p.floats, m, if m == null then {} else {m.state}
  {
    && i <= |facts| && i <= Fixed.MAX_SECTION_ROWS
    && f.Valid() && f.kind == p.kind && f.seen == facts[..i] && Typed(p.kind, facts[..i])
    && (m != null ==> Measuring(p, m, facts, i))
    && (m == null ==> Symbols(p.kind, facts) == None)
  }

  /** One pass of the selecting loop. */
  method ObserveNext(f: FixedCoding.FixedMeasurer, p: Predictor, m: NvrEncoding.NvrMeasurer?, facts: seq<Cell>, i: nat)
    returns (r: Result<bool>)
    requires Observing(f, p, m, facts, i) && i < |facts|
    modifies f, p.integers, p.floats, m, if m == null then {} else {m.state}
    ensures r.Err? ==> !Fixed.Legal(p.kind, facts)
    ensures r.Ok? ==> Observing(f, p, if r.value then m else null, facts, i + 1)
    ensures r.Ok? && r.value ==> m != null
  {
    DropOne(facts, i);
    TypedSnoc(p.kind, facts, i);
    hide Symbols, NullCount, FixedCoding.FixedMeasurer.Valid, Measuring, Matches, Typed, Fixed.Maximum;
    var observed := f.Observe(facts[i]);
    if observed.Err? { return Err(observed.error); }
    if m == null { return Ok(false); }
    var available := MeasureNext(p, m, facts, i);
    return Ok(available);
  }

  /** The choice once both candidates have seen the column. */
  method Choose(f: FixedCoding.FixedMeasurer, p: Predictor, m: NvrEncoding.NvrMeasurer?, facts: seq<Cell>)
    returns (r: Result<Selection>)
    requires Observing(f, p, m, facts, |facts|)
    modifies f, p.integers, p.floats, m, if m == null then {} else {m.state}
    ensures r.Ok? <==> Fixed.Legal(p.kind, facts)
    ensures r.Ok? ==> r.value == SelectionOf(p.kind, facts)
  {
    assert facts[..|facts|] == facts;
    hide Symbols, NullCount, Nvr.NullCount, FixedCoding.FixedMeasurer.Valid, NvrEncoding.NvrMeasurer.Valid, Measuring,
         Matches, Fixed.Encode, Nvr.Encode;
    var fixedPlan :- f.Finish();
    var nvr := None;
    if m != null {
      MeasuredAll(p, m, facts);
      SymbolShape(p.kind, facts);
      var plan := m.Finish();
      // The counts of the two candidates always agree.
      assert plan.value.factCount == fixedPlan.factCount && plan.value.nullCount == fixedPlan.nullCount;
      nvr := Some(plan.value);
    }
    var encoding := if nvr.Some? && nvr.value.byteLen < fixedPlan.byteLen then NvrEncoding else FixedEncoding;
    return Ok(Selection(encoding, fixedPlan, nvr));
  }

  // The measurers of both candidates, before the first fact.
  method Begin(facts: seq<Cell>, kind: ValueType)
    returns (f: FixedCoding.FixedMeasurer, p: Predictor, m: NvrEncoding.NvrMeasurer)
    ensures p.kind == kind && Observing(f, p, m, facts, 0)
    ensures fresh(f) && fresh(p) && fresh(p.integers) && fresh(p.floats) && fresh(m) && fresh(m.state)
  {
    f := new FixedCoding.FixedMeasurer(kind);
    p := new Predictor(kind);
    m := new NvrEncoding.NvrMeasurer(Nvr.Values);
    StartColumn(kind, facts);
    assert Measuring(p, m, facts, 0);
  }

  /** Measures both candidates in one pass. */
  method Select(facts: seq<Cell>, kind: ValueType) returns (r: Result<Selection>)
    ensures r.Ok? <==> Fixed.Legal(kind, facts)
    ensures r.Ok? ==> r.value == SelectionOf(kind, facts)
  {
    hide *;
    var fixedMeasurer, predictor, first := Begin(facts, kind);
    var nvrMeasurer: NvrEncoding.NvrMeasurer? := first;
    for i := 0 to |facts|
      invariant predictor.kind == kind && Observing(fixedMeasurer, predictor, nvrMeasurer, facts, i)
      invariant fresh(fixedMeasurer) && fresh(predictor) && fresh(predictor.integers) && fresh(predictor.floats)
      invariant nvrMeasurer != null ==> fresh(nvrMeasurer) && fresh(nvrMeasurer.state)
    {
      var observed := ObserveNext(fixedMeasurer, predictor, nvrMeasurer, facts, i);
      if observed.Err? { return Err(observed.error); }
      if !observed.value { nvrMeasurer := null; }
    }
    r := Choose(fixedMeasurer, predictor, nvrMeasurer, facts);
  }

  lemma MeasuredAll(p: Predictor, m: NvrEncoding.NvrMeasurer, facts: seq<Cell>)
    requires Measuring(p, m, facts, |facts|)
    ensures m.Valid() && Symbols(p.kind, facts) == Some(m.state.seen)
  {
    EndColumn(p, facts, m.state.seen);
  }

  /** Writes the stored form of the column. */
  method Encode(facts: seq<Cell>, kind: ValueType, selection: Selection, output: array<Byte>) returns (r: Result<nat>)
    modifies output
    ensures r.Ok? <==>
      Fixed.Legal(kind, facts) && selection == SelectionOf(kind, facts) && output.Length == |Stored(kind, facts)|
    ensures r.Ok? ==> r.value == output.Length && output[..] == Stored(kind, facts)
  {
    hide Symbols, Nvr.NullCount, NullCount, Fixed.Encode, Fixed.Width, Nvr.Encode;
    var again :- Select(facts, kind);
    if again != selection { return Err(Corruption); }
    if selection.encoding.FixedEncoding? {
      r := FixedCoding.EncodeInto(facts, selection.fixed, output);
    } else {
      r := EncodeNvr(facts, kind, selection.nvr.value, output);
    }
  }

  method EncodeNvr(facts: seq<Cell>, kind: ValueType, plan: Nvr.Plan, output: array<Byte>) returns (r: Result<nat>)
    requires Fixed.Legal(kind, facts) && Symbols(kind, facts).Some?
    requires plan == NvrEncoding.PlanOf(Symbols(kind, facts).value)
    modifies output
    ensures r.Ok? <==> output.Length == plan.byteLen
    ensures r.Ok? ==> r.value == output.Length && output[..] == Nvr.Encode(Symbols(kind, facts).value)
  {
    hide Symbols, Nvr.NullCount, NullCount, Nvr.Encode, Writing;
    if output.Length != plan.byteLen { return Err(Invalid); }
    ghost var symbols := Symbols(kind, facts).value;
    SymbolShape(kind, facts);
    var predictor, encoder := BeginWriting(facts, kind, output);
    for i := 0 to |facts|
      invariant predictor.kind == kind && fresh(predictor) && fresh(predictor.integers) && fresh(predictor.floats)
      invariant fresh(encoder) && fresh(encoder.state) && encoder.output == output
      invariant Writing(predictor, encoder, facts, i)
    {
      LegalAt(kind, facts, i);
      WriteNext(predictor, encoder, facts, i);
    }
    WrittenAll(predictor, encoder, facts);
    var finished := encoder.Finish();
    assert output[..] == output[..output.Length];
    return Ok(finished.value.1);
  }

  method BeginWriting(facts: seq<Cell>, kind: ValueType, output: array<Byte>)
    returns (p: Predictor, e: NvrEncoding.NvrEncoder)
    ensures p.kind == kind && Writing(p, e, facts, 0) && e.output == output
    ensures fresh(p) && fresh(p.integers) && fresh(p.floats) && fresh(e) && fresh(e.state)
  {
    p := new Predictor(kind);
    e := new NvrEncoding.NvrEncoder(Nvr.Values, output);
    StartColumn(kind, facts);
  }

  ghost predicate Writing(p: Predictor, e: NvrEncoding.NvrEncoder, facts: seq<Cell>, i: nat)
    reads p, p.integers, p.floats, e, e.state, e.output
  {
    && i <= |facts|
    && p.Valid() && p.integers.available && e.Valid() && e.state.mode == Nvr.Values
    && |e.state.seen| == i
    && Prepend(e.state.seen, p.Rest(facts[i..])) == Symbols(p.kind, facts)
  }

  method WriteNext(p: Predictor, e: NvrEncoding.NvrEncoder, facts: seq<Cell>, i: nat)
    requires Writing(p, e, facts, i) && i < |facts| && i < Nvr.MAX_SECTION_ROWS && Matches(p.kind, facts[i])
    requires Symbols(p.kind, facts).Some? && |Nvr.Encode(Symbols(p.kind, facts).value)| <= e.output.Length
    modifies p.integers, p.floats, e, e.state, e.output
    ensures Writing(p, e, facts, i + 1)
  {
    DropOne(facts, i);
    ghost var symbols := Symbols(p.kind, facts).value;
    hide Symbols, Nvr.Encode, NvrEncoding.NvrEncoder.Valid, Predictor.Rest, Predictor.Valid, Prepend, Matches,
         Nvr.TokensBytes, NvrEncoding.CompletedOf;
    var step := p.Observe(facts[i], facts[i + 1..]);
    if step.value.Unavailable? { PrependNone(e.state.seen); }
    var symbol := step.value.symbol;
    PrependSnoc(e.state.seen, symbol, p.Rest(facts[i + 1..]));
    PrependPrefix(e.state.seen + [symbol], p.Rest(facts[i + 1..]), symbols);
    NvrEncoding.PrefixLength(symbols, i + 1);
    var written := e.Observe(symbol);
  }

  lemma WrittenAll(p: Predictor, e: NvrEncoding.NvrEncoder, facts: seq<Cell>)
    requires Writing(p, e, facts, |facts|)
    ensures e.Valid() && Symbols(p.kind, facts) == Some(e.state.seen)
  {
    EndColumn(p, facts, e.state.seen);
  }

  lemma LegalAt(kind: ValueType, cs: seq<Cell>, i: nat)
    requires Fixed.Legal(kind, cs) && i < |cs|
    ensures Matches(kind, cs[i])
  {
  }

  // ---------------------------------------------------------------- loading

  function CellsFrom(kind: ValueType, m: Diff2.Memory, previous: Option<U32>, ss: seq<Nvr.Symbol>): Option<seq<Cell>> {
    if kind.F32Type? then
      match Diff2.XorDecode(previous, ss)
      case Err(_) => None
      case Ok(bs) => Some(CellsOfBits(bs))
    else
      match Diff2.Decode(IntegerKind(kind), m, ss)
      case Err(_) => None
      case Ok(vs) => Some(CellsOf(kind, vs))
  }

  lemma CellsFirst(kind: ValueType, m: Diff2.Memory, previous: Option<U32>, ss: seq<Nvr.Symbol>)
    requires ss != []
    ensures CellsFrom(kind, m, previous, ss) ==
            if kind.F32Type? then
              match Diff2.UnxorStep(previous, ss[0])
              case Err(_) => None
              case Ok((next, b)) => Prepend([FloatOf(b)], CellsFrom(kind, m, next, ss[1..]))
            else
              match Diff2.DecodeStep(IntegerKind(kind), m, ss[0])
              case Err(_) => None
              case Ok((m', v)) => Prepend([CellOf(kind, v)], CellsFrom(kind, m', previous, ss[1..]))
  {
    hide Diff2.UnxorStep, Diff2.DecodeStep, CellOf;
    if kind.F32Type? {
      if Diff2.XorDecode(previous, ss).Ok? {
        var bs := Diff2.XorDecode(previous, ss).value;
        assert CellsOfBits(bs) == [FloatOf(bs[0])] + CellsOfBits(bs[1..]);
      }
    } else {
      if Diff2.Decode(IntegerKind(kind), m, ss).Ok? {
        var vs := Diff2.Decode(IntegerKind(kind), m, ss).value;
        assert CellsOf(kind, vs) == [CellOf(kind, vs[0])] + CellsOf(kind, vs[1..]);
      }
    }
  }

  class Reconstructor {
    const kind: ValueType
    const integers: Diff2.Diff2Decoder
    const floats: Diff2.XorDecoder

    ghost predicate Valid()
      reads this, integers, floats
    {
      integers.Valid() && integers.kind == IntegerKind(kind)
    }

    ghost function Rest(ss: seq<Nvr.Symbol>): Option<seq<Cell>>
      reads this, integers, floats
    {
      CellsFrom(kind, integers.Now(), floats.previous, ss)
    }

    constructor (kind: ValueType)
      ensures Valid() && this.kind == kind && fresh(integers) && fresh(floats)
      ensures integers.Now() == Diff2.START && floats.previous == None
    {
      this.kind := kind;
      integers := new Diff2.Diff2Decoder(IntegerKind(kind));
      floats := new Diff2.XorDecoder();
    }

    method DecodeSymbol(symbol: Nvr.Symbol, ghost later: seq<Nvr.Symbol>) returns (r: Result<Cell>)
      requires Valid()
      modifies integers, floats
      ensures Valid()
      ensures r.Ok? ==> old(Rest([symbol] + later)) == Prepend([r.value], Rest(later))
      ensures r.Err? ==> old(Rest([symbol] + later)) == None
    {
      CellsFirst(kind, integers.Now(), floats.previous, [symbol] + later);
      assert ([symbol] + later)[1..] == later;
      hide CellsFrom, Diff2.UnxorStep, Diff2.DecodeStep, Diff2.Reachable, CellOf, FloatOf;
      if kind.F32Type? {
        var bits :- floats.DecodeSymbol(symbol);
        return Ok(FloatOf(bits));
      }
      var value :- integers.DecodeSymbol(symbol);
      return Ok(CellOf(kind, value));
    }
  }

  method ReconstructAll(kind: ValueType, symbols: seq<Nvr.Symbol>) returns (r: Result<seq<Cell>>)
    ensures match Reconstruct(kind, symbols) case Ok(cs) => r == Ok(cs) case Err(_) => r.Err?
  {
    var decoder := new Reconstructor(kind);
    ghost var whole := CellsFrom(kind, Diff2.START, None, symbols);
    assert symbols[0..] == symbols;
    var facts := [];
    PrependEmpty(whole);
    hide CellsFrom, Prepend, Reconstructor.Valid;
    for i := 0 to |symbols|
      invariant decoder.Valid() && fresh(decoder) && fresh(decoder.integers) && fresh(decoder.floats)
        && decoder.kind == kind
      invariant Prepend(facts, decoder.Rest(symbols[i..])) == whole
    {
      assert symbols[i..] == [symbols[i]] + symbols[i + 1..];
      var step := decoder.DecodeSymbol(symbols[i], symbols[i + 1..]);
      if step.Err? {
        PrependNone(facts);
        ReconstructWhole(kind, symbols);
        return Err(step.error);
      }
      PrependSnoc(facts, step.value, decoder.Rest(symbols[i + 1..]));
      facts := facts + [step.value];
    }
    assert symbols[|symbols|..] == [];
    NothingLeft(kind, decoder.integers.Now(), decoder.floats.previous, facts);
    ReconstructWhole(kind, symbols);
    return Ok(facts);
  }

  lemma NothingLeft(kind: ValueType, m: Diff2.Memory, previous: Option<U32>, facts: seq<Cell>)
    ensures Prepend(facts, CellsFrom(kind, m, previous, [])) == Some(facts)
  {
    assert facts + [] == facts && CellsOf(kind, []) == [] && CellsOfBits([]) == [];
  }

  lemma ReconstructWhole(kind: ValueType, ss: seq<Nvr.Symbol>)
    ensures CellsFrom(kind, Diff2.START, None, ss) ==
        match Reconstruct(kind, ss) case Ok(cs) => Some(cs) case Err(_) => None
  {
    hide Diff2.XorDecode, Diff2.Decode;
  }

  /** Loading succeeds exactly on stored columns of the named encoding. */
  method Decode(kind: ValueType, tag: Byte, bytes: seq<Byte>, factCount: U32, nullCount: U32)
    returns (r: Result<seq<Cell>>)
    ensures r.Ok? ==> ColumnDecodes(kind, tag, bytes, factCount, nullCount, r.value)
    ensures r.Err? ==> forall cs :: !ColumnDecodes(kind, tag, bytes, factCount, nullCount, cs)
  {
    if tag == 0 {
      hide Fixed.Decodes;
      r := FixedDecoding.DecodeBytes(kind, bytes, factCount, nullCount);
      return;
    }
    if tag != 1 { return Err(Corruption); }
    forall s, t | NvrDecoding.Decodes(bytes, Nvr.Values, factCount, nullCount, s)
      && NvrDecoding.Decodes(bytes, Nvr.Values, factCount, nullCount, t)
      ensures s == t
    {
      Nvr.EncodeInjective(s, t);
    }
    hide NvrDecoding.Decodes, Reconstruct;
    var symbols :- NvrDecoding.Decode(bytes, Nvr.Values, factCount, nullCount);
    r := ReconstructAll(kind, symbols);
  }
}
