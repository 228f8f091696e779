/** The selecting, writing and loading loops of timestamp columns, proved against `Timestamp`. */
module TimestampCoding {
  import opened Prelude
  import opened LittleEndian
  import opened Prefixing
  import opened Timestamp
  import Nvr
  import NvrEncoding
  import NvrDecoding
  import Diff2
  import Sequences

  // What a predictor in this memory would still emit.
  function SymbolsFrom(m: Diff2.Memory, ts: seq<I64>): Option<seq<Nvr.Symbol>> {
    Diff2.Encode(Diff2.Timestamps, m, Numbers(ts))
  }

  lemma FirstSymbol(m: Diff2.Memory, t: I64, ts: seq<I64>)
    ensures Diff2.Storable(Diff2.Timestamps, Diff2.Number(t))
    ensures SymbolsFrom(m, [t] + ts) ==
            match Diff2.EncodeStep(Diff2.Timestamps, m, Diff2.Number(t))
            case None => None
            case Some((m', s)) => Prepend([s], SymbolsFrom(m', ts))
  {
    assert Numbers([t] + ts)[1..] == Numbers(ts);
    hide Diff2.EncodeStep;
  }

  lemma DropOne(ts: seq<I64>, i: nat)
    requires i < |ts|
    ensures ts[i..] == [ts[i]] + ts[i + 1..] && ts[..i + 1] == ts[..i] + [ts[i]]
  {
  }

  lemma Start(ts: seq<I64>)
    ensures ts[0..] == ts && Prepend([], SymbolsFrom(Diff2.START, ts)) == Symbols(ts)
  {
    hide Diff2.Encode, Numbers;
    PrependEmpty(Symbols(ts));
    Sequences.Neutral(ts);
  }

  lemma NothingLeft(m: Diff2.Memory, ts: seq<I64>, ss: seq<Nvr.Symbol>)
    requires Prepend(ss, SymbolsFrom(m, ts[|ts|..])) == Symbols(ts)
    ensures Symbols(ts) == Some(ss)
  {
    assert ts[|ts|..] == [] && Numbers([]) == [];
    Sequences.Neutral(ss);
  }

  /** A section holds one to 65,536 strictly increasing timestamps. */
  method ValidateSource(ts: seq<I64>) returns (r: Result<nat>)
    ensures r.Ok? <==> Legal(ts)
    ensures r.Ok? ==> r.value == |ts|
  {
    if |ts| == 0 { return Err(Corruption); }
    if |ts| > MAX_SECTION_ROWS { return Err(Limit); }
    for i := 1 to |ts|
      invariant forall j | 0 < j < i :: ts[j - 1] < ts[j]
    {
      if ts[i - 1] >= ts[i] { return Err(Invalid); }
    }
    return Ok(|ts|);
  }

  // ---------------------------------------------------------------- selecting

  // Predictor and measurer after `i` timestamps.
  ghost predicate Measuring(p: Diff2.Diff2Encoder, m: NvrEncoding.NvrMeasurer, ts: seq<I64>, i: nat)
    reads p, m, m.state
  {
    && i <= |ts| && p.Valid() && p.kind == Diff2.Timestamps && p.available
    && m.Valid() && m.state.mode == Nvr.Timestamps && |m.state.seen| == i
    && Prepend(m.state.seen, SymbolsFrom(p.Now(), ts[i..])) == Symbols(ts)
  }

  // Feeds one timestamp to the competing candidate; false once the column is unrepresentable.
  method MeasureNext(p: Diff2.Diff2Encoder, m: NvrEncoding.NvrMeasurer, ts: seq<I64>, i: nat) returns (available: bool)
    requires Measuring(p, m, ts, i) && i < |ts| <= MAX_SECTION_ROWS
    modifies p, m, m.state
    ensures available ==> Measuring(p, m, ts, i + 1)
    ensures !available ==> Symbols(ts) == None
  {
    hide Symbols, SymbolsFrom, Nvr.NullCount, NvrEncoding.NvrMeasurer.Valid, Prepend, Diff2.EncodeStep, Diff2.Storable,
         Diff2.Reachable;
    DropOne(ts, i);
    FirstSymbol(p.Now(), ts[i], ts[i + 1..]);
    StepSymbol(p.Now(), ts[i]);
    ghost var seen := m.state.seen;
    var step := p.Observe(Diff2.Number(ts[i]));
    if step.value.Unavailable? {
      PrependNone(seen);
      return false;
    }
    PrependSnoc(seen, step.value.symbol, SymbolsFrom(p.Now(), ts[i + 1..]));
    var added := m.Observe(step.value.symbol);
    return true;
  }

  lemma StepSymbol(m: Diff2.Memory, t: I64)
    ensures Diff2.EncodeStep(Diff2.Timestamps, m, Diff2.Number(t)).Some? ==>
      !Diff2.EncodeStep(Diff2.Timestamps, m, Diff2.Number(t)).value.1.Null?
  {
    hide Diff2.EncodeStep;
    Diff2.StepNull(Diff2.Timestamps, m, Diff2.Number(t));
  }

  // Runs the competing candidate over the whole column.
  method MeasureNvr(ts: seq<I64>) returns (nvr: Option<Nvr.Plan>)
    requires Legal(ts)
    ensures nvr == match Symbols(ts) case None => None case Some(ss) => Some(NvrEncoding.PlanOf(ss))
  {
    hide Symbols, Increasing, Measuring, Nvr.Encode, Nvr.NullCount, NvrEncoding.PlanOf;
    var predictor := new Diff2.Diff2Encoder(Diff2.Timestamps);
    var measurer := new NvrEncoding.NvrMeasurer(Nvr.Timestamps);
    BeginMeasuring(predictor, measurer, ts);
    for i := 0 to |ts|
      invariant fresh(predictor) && fresh(measurer) && fresh(measurer.state) && Measuring(predictor, measurer, ts, i)
    {
      var available := MeasureNext(predictor, measurer, ts, i);
      if !available { return None; }
    }
    MeasuredAll(predictor, measurer, ts);
    SymbolShape(ts);
    var plan := measurer.Finish();
    return Some(plan.value);
  }

  /** Measures the NVR candidate and keeps the smaller form; ties stay fixed. */
  method Select(ts: seq<I64>) returns (r: Result<Plan>)
    ensures r.Ok? <==> Legal(ts)
    ensures r.Ok? ==> r.value == PlanOf(ts)
  {
    hide Symbols, Increasing, Nvr.Encode, Nvr.NullCount;
    var rowCount :- ValidateSource(ts);
    var nvr := MeasureNvr(ts);
    var fixedLen := 8 * rowCount;
    var encoding := if nvr.Some? && nvr.value.byteLen < fixedLen then NvrEncoding else FixedEncoding;
    return Ok(Plan(encoding, fixedLen, nvr, rowCount));
  }

  lemma BeginMeasuring(p: Diff2.Diff2Encoder, m: NvrEncoding.NvrMeasurer, ts: seq<I64>)
    requires p.Valid() && p.kind == Diff2.Timestamps && p.available && p.Now() == Diff2.START
    requires m.Valid() && m.state.mode == Nvr.Timestamps && m.state.seen == []
    ensures Measuring(p, m, ts, 0)
  {
    hide NvrEncoding.NvrMeasurer.Valid, Symbols, SymbolsFrom, Prepend;
    Start(ts);
  }

  lemma MeasuredAll(p: Diff2.Diff2Encoder, m: NvrEncoding.NvrMeasurer, ts: seq<I64>)
    requires Measuring(p, m, ts, |ts|)
    ensures m.Valid() && Symbols(ts) == Some(m.state.seen) && |m.state.seen| == |ts|
  {
    hide NvrEncoding.NvrMeasurer.Valid, Symbols, SymbolsFrom, Prepend;
    NothingLeft(p.Now(), ts, m.state.seen);
  }

  // ------------------------------------------------------------------ writing

  lemma {:induction false} FixedBytesSnoc(ts: seq<I64>, t: I64)
    ensures FixedBytes(ts + [t]) == FixedBytes(ts) + Le(ToBits(t), 8)
    decreases |ts|
  {
    hide Le, ToBits;
    if ts == [] {
      assert ([] + [t])[1..] == [] && FixedBytes([]) == [];
      Sequences.Neutral(Le(ToBits(t), 8));
    } else {
      assert (ts + [t])[1..] == ts[1..] + [t] && (ts + [t])[0] == ts[0];
      FixedBytesSnoc(ts[1..], t);
      Sequences.Associative(Le(ToBits(ts[0]), 8), FixedBytes(ts[1..]), Le(ToBits(t), 8));
    }
  }

  /** Writes eight bytes a timestamp. */
  method EncodeFixed(ts: seq<I64>, output: array<Byte>)
    requires output.Length == 8 * |ts|
    modifies output
    ensures output[..] == FixedBytes(ts)
  {
    hide Le, FixedBytes, ToBits;
    FixedLength([]);
    for i := 0 to |ts|
      invariant output[..8 * i] == FixedBytes(ts[..i])
    {
      DropOne(ts, i);
      FixedBytesSnoc(ts[..i], ts[i]);
      WriteI64(ts[i], output, 8 * i);
      assert output[..8 * (i + 1)] == output[..8 * i + 8];
    }
    Sequences.Neutral(ts);
    assert output[..8 * |ts|] == output[..];
  }

  method WriteI64(t: I64, output: array<Byte>, at: nat)
    requires at + 8 <= output.Length
    modifies output
    ensures output[..at + 8] == old(output[..at]) + Le(ToBits(t), 8)
  {
    hide Le, ToBits;
    LeLength(ToBits(t), 8);
    var chunk := Le(ToBits(t), 8);
    forall k | 0 <= k < 8 { output[at + k] := chunk[k]; }
    assert output[at..at + 8] == chunk;
    assert output[..at + 8] == output[..at] + output[at..at + 8];
  }

  ghost predicate Writing(p: Diff2.Diff2Encoder, e: NvrEncoding.NvrEncoder, ts: seq<I64>, i: nat)
    reads p, e, e.state, e.output
  {
    && i <= |ts| && p.Valid() && p.kind == Diff2.Timestamps && p.available
    && e.Valid() && e.state.mode == Nvr.Timestamps && |e.state.seen| == i
    && Prepend(e.state.seen, SymbolsFrom(p.Now(), ts[i..])) == Symbols(ts)
  }

  method WriteNext(p: Diff2.Diff2Encoder, e: NvrEncoding.NvrEncoder, ts: seq<I64>, i: nat)
    requires Writing(p, e, ts, i) && i < |ts| <= MAX_SECTION_ROWS
    requires Symbols(ts).Some? && |Nvr.Encode(Symbols(ts).value)| <= e.output.Length
    modifies p, e, e.state, e.output
    ensures Writing(p, e, ts, i + 1)
  {
    hide Symbols, SymbolsFrom, Nvr.Encode, NvrEncoding.NvrEncoder.Valid, Prepend, Diff2.EncodeStep, Diff2.Storable,
         Diff2.Reachable,
         Nvr.TokensBytes, NvrEncoding.CompletedOf;
    DropOne(ts, i);
    FirstSymbol(p.Now(), ts[i], ts[i + 1..]);
    StepSymbol(p.Now(), ts[i]);
    ghost var seen, symbols := e.state.seen, Symbols(ts).value;
    var step := p.Observe(Diff2.Number(ts[i]));
    if step.value.Unavailable? { PrependNone(seen); }
    var symbol := step.value.symbol;
    PrependSnoc(seen, symbol, SymbolsFrom(p.Now(), ts[i + 1..]));
    PrependPrefix(seen + [symbol], SymbolsFrom(p.Now(), ts[i + 1..]), symbols);
    NvrEncoding.PrefixLength(symbols, i + 1);
    var written := e.Observe(symbol);
  }

  /** Writes the NVR form of a column that has one. */
  method EncodeNvr(ts: seq<I64>, plan: Nvr.Plan, output: array<Byte>)
    requires Legal(ts) && Symbols(ts).Some? && plan == NvrEncoding.PlanOf(Symbols(ts).value)
    requires output.Length == plan.byteLen
    modifies output
    ensures output[..] == Nvr.Encode(Symbols(ts).value)
  {
    hide Symbols, Increasing, Writing, Nvr.Encode, Nvr.NullCount, NvrEncoding.NvrEncoder.Valid, Diff2.Reachable,
         NvrEncoding.CompletedOf,
         Nvr.TokensBytes, SymbolsFrom, Prepend;
    var predictor := new Diff2.Diff2Encoder(Diff2.Timestamps);
    var encoder := new NvrEncoding.NvrEncoder(Nvr.Timestamps, output);
    BeginWriting(predictor, encoder, ts);
    for i := 0 to |ts|
      invariant fresh(predictor) && fresh(encoder) && fresh(encoder.state) && encoder.output == output
      invariant Writing(predictor, encoder, ts, i)
    {
      WriteNext(predictor, encoder, ts, i);
    }
    WrittenAll(predictor, encoder, ts);
    SymbolShape(ts);
    var finished := encoder.Finish();
    assert output[..] == output[..output.Length];
  }

  lemma BeginWriting(p: Diff2.Diff2Encoder, e: NvrEncoding.NvrEncoder, ts: seq<I64>)
    requires p.Valid() && p.kind == Diff2.Timestamps && p.available && p.Now() == Diff2.START
    requires e.Valid() && e.state.mode == Nvr.Timestamps && e.state.seen == []
    ensures Writing(p, e, ts, 0)
  {
    hide NvrEncoding.NvrEncoder.Valid, Symbols, SymbolsFrom, Prepend;
    Start(ts);
  }

  lemma WrittenAll(p: Diff2.Diff2Encoder, e: NvrEncoding.NvrEncoder, ts: seq<I64>)
    requires Writing(p, e, ts, |ts|)
    ensures e.Valid() && Symbols(ts) == Some(e.state.seen) && |e.state.seen| == |ts|
  {
    hide NvrEncoding.NvrEncoder.Valid, Symbols, SymbolsFrom, Prepend;
    NothingLeft(p.Now(), ts, e.state.seen);
  }

  /** Writes the stored form; the plan must be the one selection gives. */
  method Encode(ts: seq<I64>, plan: Plan, output: array<Byte>) returns (r: Result<nat>)
    modifies output
    ensures r.Ok? <==> Legal(ts) && plan == PlanOf(ts) && output.Length == |Stored(ts)|
    ensures r.Ok? ==> r.value == output.Length && output[..] == Stored(ts)
  {
    hide Symbols, Increasing, Nvr.Encode, FixedBytes, Nvr.NullCount;
    var again :- Select(ts);
    if again != plan { return Err(Corruption); }
    FixedLength(ts);
    var expected := if plan.encoding.NvrEncoding? then plan.nvr.value.byteLen else plan.fixedLen;
    if output.Length != expected { return Err(Invalid); }
    if plan.encoding.FixedEncoding? { EncodeFixed(ts, output); } else { EncodeNvr(ts, plan.nvr.value, output); }
    return Ok(expected);
  }

  // ------------------------------------------------------------------ loading

  lemma {:induction false} FixedReadSnoc(bytes: seq<Byte>, chunk: seq<Byte>)
    requires |chunk| == 8 && FixedRead(bytes).Some?
    ensures FixedRead(bytes + chunk) == Some(FixedRead(bytes).value + [FromBits(ReadBits(chunk))])
    decreases |bytes|
  {
    hide FromBits, ReadBits;
    if bytes == [] {
      Sequences.Neutral(chunk);
      assert chunk[8..] == [] && chunk[..8] == chunk && FixedRead(chunk[8..]) == Some([]);
      Sequences.Neutral([FromBits(ReadBits(chunk))]);
      assert FixedRead(bytes + chunk) == FixedRead(chunk);
    } else {
      assert (bytes + chunk)[8..] == bytes[8..] + chunk && (bytes + chunk)[..8] == bytes[..8];
      FixedReadSnoc(bytes[8..], chunk);
      Sequences.Associative([FromBits(ReadBits(bytes[..8]))], FixedRead(bytes[8..]).value, [FromBits(ReadBits(chunk))]);
    }
  }

  /** Reads eight bytes a timestamp. */
  method DecodeFixed(bytes: seq<Byte>, rowCount: nat) returns (r: Result<seq<I64>>)
    ensures r.Ok? <==> |bytes| == 8 * rowCount
    ensures r.Ok? ==> FixedRead(bytes) == Some(r.value) && |r.value| == rowCount
  {
    hide FixedRead, ReadBits, FromBits;
    if |bytes| != 8 * rowCount { return Err(Corruption); }
    var ts: seq<I64> := [];
    ReadNothing(bytes);
    for i := 0 to rowCount
      invariant FixedRead(bytes[..8 * i]) == Some(ts) && |ts| == i
    {
      var chunk := bytes[8 * i..8 * i + 8];
      FixedReadSnoc(bytes[..8 * i], chunk);
      assert bytes[..8 * (i + 1)] == bytes[..8 * i] + chunk;
      ts := ts + [FromBits(ReadBits(chunk))];
    }
    Sequences.Neutral(bytes);
    return Ok(ts);
  }

  lemma ReadNothing(bytes: seq<Byte>)
    ensures FixedRead(bytes[..8 * 0]) == Some([])
  {
  }

  // What a predictor in this memory would still answer.
  function ValuesFrom(m: Diff2.Memory, ss: seq<Nvr.Symbol>): Option<seq<Diff2.Value>> {
    match Diff2.Decode(Diff2.Timestamps, m, ss) case Err(_) => None case Ok(vs) => Some(vs)
  }

  lemma FirstValue(m: Diff2.Memory, s: Nvr.Symbol, ss: seq<Nvr.Symbol>)
    ensures ValuesFrom(m, [s] + ss) ==
            match Diff2.DecodeStep(Diff2.Timestamps, m, s)
            case Err(_) => None
            case Ok((m', v)) => Prepend([v], ValuesFrom(m', ss))
  {
    assert ([s] + ss)[1..] == ss;
    hide Diff2.DecodeStep;
  }

  lemma NumbersSnoc(ts: seq<I64>, t: I64)
    ensures Numbers(ts + [t]) == Numbers(ts) + [Diff2.Number(t)]
  {
  }

  // Decoding a timestamp symbol answers a number in the 64-bit range or fails.
  lemma StepNumber(m: Diff2.Memory, s: Nvr.Symbol)
    ensures Diff2.DecodeStep(Diff2.Timestamps, m, s).Ok? ==>
      var v := Diff2.DecodeStep(Diff2.Timestamps, m, s).value.1; v.Number? && I64_MIN <= v.value <= I64_MAX
  {
  }

  /** Runs symbols back through the predictor. */
  method Reconstruct(ss: seq<Nvr.Symbol>) returns (r: Result<seq<I64>>)
    ensures r.Ok? ==> Diff2.Decode(Diff2.Timestamps, Diff2.START, ss) == Ok(Numbers(r.value))
    ensures r.Err? ==> Diff2.Decode(Diff2.Timestamps, Diff2.START, ss).Err?
  {
    hide Diff2.Decode, Diff2.DecodeStep, Diff2.Reachable, Prepend, Numbers, Diff2.InDomain;
    var predictor := new Diff2.Diff2Decoder(Diff2.Timestamps);
    var ts: seq<I64> := [];
    NoNumbers();
    PrependEmpty(ValuesFrom(Diff2.START, ss));
    Sequences.Neutral(ss);
    for i := 0 to |ss|
      invariant fresh(predictor) && predictor.Valid() && predictor.kind == Diff2.Timestamps
      invariant Prepend(Numbers(ts), ValuesFrom(predictor.Now(), ss[i..])) == ValuesFrom(Diff2.START, ss)
    {
      Sequences.Around(ss, i);
      FirstValue(predictor.Now(), ss[i], ss[i + 1..]);
      StepNumber(predictor.Now(), ss[i]);
      var step := predictor.DecodeSymbol(ss[i]);
      if step.Err? {
        PrependNone(Numbers(ts));
        return Err(step.error);
      }
      PrependSnoc(Numbers(ts), step.value, ValuesFrom(predictor.Now(), ss[i + 1..]));
      NumbersSnoc(ts, step.value.value);
      ts := ts + [step.value.value];
    }
    Sequences.Neutral(ss);
    NoMoreValues(predictor.Now(), Numbers(ts));
    return Ok(ts);
  }

  lemma NoNumbers()
    ensures Numbers([]) == []
  {
  }

  lemma NoMoreValues(m: Diff2.Memory, vs: seq<Diff2.Value>)
    ensures Prepend(vs, ValuesFrom(m, [])) == Some(vs)
  {
    Sequences.Neutral(vs);
  }

  /** Reads an NVR column, or tells that the bytes are none. */
  method DecodeNvr(bytes: seq<Byte>, rowCount: U32) returns (r: Result<seq<I64>>)
    ensures r.Ok? ==> NvrReads(bytes, rowCount, r.value) && |r.value| == rowCount
    ensures r.Err? ==> forall ts :: !NvrReads(bytes, rowCount, ts)
  {
    hide Diff2.Decode, Numbers, Nvr.NullCount, Nvr.Encode, Increasing;
    var decoded := NvrDecoding.Decode(bytes, Nvr.Timestamps, rowCount, 0);
    if decoded.Err? { return Err(decoded.error); }
    var symbols := decoded.value;
    SymbolsOnce(bytes, rowCount, symbols);
    r := Reconstruct(symbols);
    if r.Ok? { ReconstructedLength(symbols, r.value); }
  }

  lemma SymbolsOnce(bytes: seq<Byte>, rowCount: nat, symbols: seq<Nvr.Symbol>)
    requires NvrDecoding.Decodes(bytes, Nvr.Timestamps, rowCount, 0, symbols)
    ensures forall ss :: NvrDecoding.Decodes(bytes, Nvr.Timestamps, rowCount, 0, ss) ==> ss == symbols
  {
    hide Nvr.Encode, Nvr.NullCount;
    forall ss | NvrDecoding.Decodes(bytes, Nvr.Timestamps, rowCount, 0, ss)
      ensures ss == symbols
    {
      Nvr.EncodeInjective(ss, symbols);
    }
  }

  lemma ReconstructedLength(ss: seq<Nvr.Symbol>, ts: seq<I64>)
    requires Diff2.Decode(Diff2.Timestamps, Diff2.START, ss) == Ok(Numbers(ts))
    ensures |ts| == |ss|
  {
    hide Diff2.Decode;
    SymbolsInverse(ts, ss);
    SymbolShape(ts);
  }

  /** Whether decoded timestamps are in order and end where the directory says. */
  method ValidateDecoded(ts: seq<I64>, low: I64, high: I64) returns (r: Result<()>)
    ensures r.Ok? <==> ts != [] && ts[0] == low && ts[|ts| - 1] == high && Increasing(ts)
  {
    if ts == [] || ts[0] != low || ts[|ts| - 1] != high { return Err(Corruption); }
    for i := 1 to |ts|
      invariant forall j | 0 < j < i :: ts[j - 1] < ts[j]
    {
      if ts[i - 1] >= ts[i] { return Err(Corruption); }
    }
    return Ok(());
  }

  /** Loading succeeds exactly on stored columns with the announced order and ends. */
  method Decode(tag: Byte, bytes: seq<Byte>, rowCount: U32, low: I64, high: I64) returns (r: Result<seq<I64>>)
    ensures r.Ok? ==> Loads(tag, bytes, rowCount, low, high, r.value)
    ensures r.Err? ==> forall ts :: !Loads(tag, bytes, rowCount, low, high, ts)
  {
    hide FixedRead, NvrReads, Increasing;
    if rowCount == 0 { return Err(Corruption); }
    if rowCount > MAX_SECTION_ROWS { return Err(Limit); }
    if tag == 0 {
      FixedReadsRows(bytes, rowCount);
      r := DecodeFixed(bytes, rowCount);
    } else if tag == 1 {
      r := DecodeNvr(bytes, rowCount);
    } else {
      return Err(Corruption);
    }
    if r.Err? { return; }
    var found := r.value;
    if tag == 1 { ReadsOnce(bytes, rowCount, found); }
    var valid := ValidateDecoded(found, low, high);
    if valid.Err? { return Err(valid.error); }
  }

  lemma FixedReadsRows(bytes: seq<Byte>, rowCount: nat)
    ensures forall ts :: FixedRead(bytes) == Some(ts) && |ts| == rowCount ==> |bytes| == 8 * rowCount
  {
    hide FixedRead;
    forall ts | FixedRead(bytes) == Some(ts) && |ts| == rowCount ensures |bytes| == 8 * rowCount {
      FixedIff(bytes, ts);
      FixedLength(ts);
    }
  }

  lemma ReadsOnce(bytes: seq<Byte>, rowCount: nat, found: seq<I64>)
    requires NvrReads(bytes, rowCount, found) && |found| == rowCount && 1 <= rowCount <= MAX_SECTION_ROWS
    ensures forall ts :: NvrReads(bytes, rowCount, ts) && |ts| == rowCount ==> ts == found
  {
    hide NvrReads;
    forall ts | NvrReads(bytes, rowCount, ts) && |ts| == rowCount
      ensures ts == found
    {
      NvrReadsOnce(bytes, ts, found);
    }
  }
}
