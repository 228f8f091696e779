/**
 Timestamp columns: second differences and NVR compete with plain 8-byte integers, and
 the reader accepts only strictly increasing columns with the announced ends.
 */
module Timestamp {
  import opened Prelude
  import opened LittleEndian
  import Nvr
  import NvrEncoding
  import NvrDecoding
  import Diff2
  import Sequences

  const MAX_SECTION_ROWS: nat := 65_536

  datatype Encoding = FixedEncoding | NvrEncoding {
    function Tag(): Byte { if FixedEncoding? then 0 else 1 }
  }

  datatype Plan = Plan(encoding: Encoding, fixedLen: nat, nvr: Option<Nvr.Plan>, rowCount: nat)

  predicate Increasing(ts: seq<I64>) { forall i | 0 < i < |ts| :: ts[i - 1] < ts[i] }

  predicate Legal(ts: seq<I64>) { 1 <= |ts| <= 65_536 && Increasing(ts) }

  // ------------------------------------------------------- the fixed layout

  function ToBits(x: I64): U64 { if x < 0 then x + 0x1_0000_0000_0000_0000 else x }
  function FromBits(n: U64): I64 { if n > I64_MAX then n - 0x1_0000_0000_0000_0000 else n }

  function FixedBytes(ts: seq<I64>): seq<Byte> {
    if ts == [] then [] else Le(ToBits(ts[0]), 8) + FixedBytes(ts[1..])
  }

  function ReadBits(bytes: seq<Byte>): (n: U64)
    requires |bytes| == 8
    ensures Le(n, 8) == bytes
  {
    LeInverse(FromLe(bytes), bytes);
    WidthCapacities();
    FromLe(bytes)
  }

  function FixedRead(bytes: seq<Byte>): Option<seq<I64>> {
    if bytes == [] then Some([]) else if |bytes| < 8 then None else
    match FixedRead(bytes[8..])
    case None => None
    case Some(rest) => Some([FromBits(ReadBits(bytes[..8]))] + rest)
  }

  lemma BitsInverse(x: I64, n: U64)
    ensures ToBits(x) == n <==> FromBits(n) == x
  {
  }

  lemma BitsRead(x: I64, bytes: seq<Byte>)
    requires |bytes| == 8
    ensures Le(ToBits(x), 8) == bytes <==> FromBits(ReadBits(bytes)) == x
  {
    hide Le, FromLe;
    BitsInverse(x, ReadBits(bytes));
    LeInverse(ToBits(x), bytes);
    LeInverse(ReadBits(bytes), bytes);
    WidthCapacities();
  }

  /** The fixed layout is read back by exactly one column. */
  lemma {:induction false} FixedIff(bytes: seq<Byte>, ts: seq<I64>)
    ensures FixedRead(bytes) == Some(ts) <==> FixedBytes(ts) == bytes
    decreases |bytes| + |ts|
  {
    hide Le, ToBits, FromBits, ReadBits;
    if ts == [] {
      if bytes != [] && |bytes| >= 8 && FixedRead(bytes[8..]).Some? { assert FixedRead(bytes).value != []; }
    } else {
      LeLength(ToBits(ts[0]), 8);
      if |bytes| >= 8 {
        FixedIff(bytes[8..], ts[1..]);
        BitsRead(ts[0], bytes[..8]);
        FixedCons(bytes, ts);
      }
    }
  }

  lemma FixedCons(bytes: seq<Byte>, ts: seq<I64>)
    requires ts != [] && |bytes| >= 8
    ensures FixedBytes(ts) == bytes <==> Le(ToBits(ts[0]), 8) == bytes[..8] && FixedBytes(ts[1..]) == bytes[8..]
    ensures FixedRead(bytes) == Some(ts) <==>
      FixedRead(bytes[8..]) == Some(ts[1..]) && FromBits(ReadBits(bytes[..8])) == ts[0]
  {
    LeLength(ToBits(ts[0]), 8);
    hide Le, ToBits, FromBits, ReadBits;
    assert bytes == bytes[..8] + bytes[8..];
    assert ts == [ts[0]] + ts[1..];
    Sequences.Parts(Le(ToBits(ts[0]), 8), FixedBytes(ts[1..]));
    if FixedRead(bytes[8..]).Some? {
      Sequences.Parts([FromBits(ReadBits(bytes[..8]))], FixedRead(bytes[8..]).value);
    }
  }

  lemma {:induction false} FixedLength(ts: seq<I64>)
    ensures |FixedBytes(ts)| == 8 * |ts|
  {
    if ts != [] {
      LeLength(ToBits(ts[0]), 8);
      FixedLength(ts[1..]);
    }
  }

  // ------------------------------------------------------- the competition

  function Numbers(ts: seq<I64>): seq<Diff2.Value> { seq(|ts|, i requires 0 <= i < |ts| => Diff2.Number(ts[i])) }

  function Symbols(ts: seq<I64>): Option<seq<Nvr.Symbol>> { Diff2.Encode(Diff2.Timestamps, Diff2.START, Numbers(ts)) }

  function NvrBytes(ts: seq<I64>): Option<seq<Byte>> {
    match Symbols(ts) case None => None case Some(ss) => Some(Nvr.Encode(ss))
  }

  function Chosen(ts: seq<I64>): Encoding {
    if NvrBytes(ts).Some? && |NvrBytes(ts).value| < 8 * |ts| then NvrEncoding else FixedEncoding
  }

  function Stored(ts: seq<I64>): seq<Byte> { if Chosen(ts).NvrEncoding? then NvrBytes(ts).value else FixedBytes(ts) }

  function PlanOf(ts: seq<I64>): Plan {
    Plan(Chosen(ts), 8 * |ts|, match Symbols(ts) case None => None case Some(ss) => Some(NvrEncoding.PlanOf(ss)), |ts|)
  }

  /** The stored form is the smaller candidate; a tie stays fixed. */
  lemma StoredIsSmallest(ts: seq<I64>)
    ensures |Stored(ts)| <= |FixedBytes(ts)|
    ensures NvrBytes(ts).Some? ==> |Stored(ts)| <= |NvrBytes(ts).value|
    ensures Chosen(ts).NvrEncoding? <==> |Stored(ts)| < |FixedBytes(ts)|
  {
    hide FixedBytes, Symbols, Nvr.Encode;
    FixedLength(ts);
  }

  // ---------------------------------------------------------- the reader

  /** The symbols of a byte stream, run back through the predictor. */
  ghost predicate NvrReads(bytes: seq<Byte>, rows: nat, ts: seq<I64>) {
    exists ss :: NvrDecoding.Decodes(bytes, Nvr.Timestamps, rows, 0, ss)
      && Diff2.Decode(Diff2.Timestamps, Diff2.START, ss) == Ok(Numbers(ts))
  }

  /** The column that a tag, bytes and directory fields stand for: in order, with the announced ends. */
  ghost predicate Loads(tag: Byte, bytes: seq<Byte>, rows: nat, low: I64, high: I64, ts: seq<I64>) {
    && Legal(ts) && |ts| == rows && ts[0] == low && ts[|ts| - 1] == high
    && (if tag == 0 then FixedRead(bytes) == Some(ts) else tag == 1 && NvrReads(bytes, rows, ts))
  }

  /** Timestamps come back from their symbols, and only from those. */
  lemma SymbolsInverse(ts: seq<I64>, ss: seq<Nvr.Symbol>)
    ensures Symbols(ts) == Some(ss) <==> Diff2.Decode(Diff2.Timestamps, Diff2.START, ss) == Ok(Numbers(ts))
  {
    Diff2.ColumnInverse(Diff2.Timestamps, Diff2.START, Numbers(ts), ss);
    hide Diff2.Encode, Diff2.Decode;
  }

  lemma SymbolShape(ts: seq<I64>)
    requires Symbols(ts).Some?
    ensures |Symbols(ts).value| == |ts| && Nvr.NullCount(Symbols(ts).value) == 0
  {
    Diff2.EncodeLength(Diff2.Timestamps, Diff2.START, Numbers(ts));
    hide Diff2.Encode;
    NoNulls(Symbols(ts).value);
  }

  lemma {:induction false} NoNulls(ss: seq<Nvr.Symbol>)
    requires forall i | 0 <= i < |ss| :: !ss[i].Null?
    ensures Nvr.NullCount(ss) == 0
  {
    if ss != [] { NoNulls(ss[..|ss| - 1]); }
  }

  lemma NumbersInjective(ts: seq<I64>, us: seq<I64>)
    requires Numbers(ts) == Numbers(us)
    ensures ts == us
  {
    forall i | 0 <= i < |ts| ensures |us| == |ts| && ts[i] == us[i] { assert Numbers(ts)[i] == Numbers(us)[i]; }
    assert |Numbers(ts)| == |Numbers(us)|;
  }

  /** The NVR reader is the exact inverse of the NVR form. */
  lemma NvrReadsIff(bytes: seq<Byte>, ts: seq<I64>)
    requires 1 <= |ts| <= MAX_SECTION_ROWS
    ensures NvrReads(bytes, |ts|, ts) <==> NvrBytes(ts) == Some(bytes)
  {
    hide Symbols, Numbers, Nvr.Encode, Diff2.Decode, Nvr.NullCount;
    if NvrReads(bytes, |ts|, ts) {
      var ss :| NvrDecoding.Decodes(bytes, Nvr.Timestamps, |ts|, 0, ss)
        && Diff2.Decode(Diff2.Timestamps, Diff2.START, ss) == Ok(Numbers(ts));
      SymbolsInverse(ts, ss);
    }
    if Symbols(ts).Some? {
      SymbolsInverse(ts, Symbols(ts).value);
      SymbolShape(ts);
      if NvrBytes(ts) == Some(bytes) {
        assert NvrDecoding.Decodes(bytes, Nvr.Timestamps, |ts|, 0, Symbols(ts).value);
      }
    }
  }

  /** A byte stream has at most one NVR reading. */
  lemma NvrReadsOnce(bytes: seq<Byte>, ts: seq<I64>, us: seq<I64>)
    requires |ts| == |us| && 1 <= |ts| <= MAX_SECTION_ROWS && NvrReads(bytes, |ts|, ts) && NvrReads(bytes, |us|, us)
    ensures ts == us
  {
    hide Symbols, Numbers, Nvr.Encode, Diff2.Decode, NvrReads;
    NvrReadsIff(bytes, ts);
    NvrReadsIff(bytes, us);
    SymbolShape(ts);
    SymbolShape(us);
    Nvr.EncodeInjective(Symbols(ts).value, Symbols(us).value);
    SymbolsInverse(ts, Symbols(ts).value);
    SymbolsInverse(us, Symbols(us).value);
    NumbersInjective(ts, us);
  }

  /** Loading accepts only canonical bytes: whatever loads is the form of its column under that tag. */
  lemma LoadsCanonical(tag: Byte, bytes: seq<Byte>, rows: nat, low: I64, high: I64, ts: seq<I64>)
    requires Loads(tag, bytes, rows, low, high, ts)
    ensures (tag == 0 && FixedBytes(ts) == bytes) || (tag == 1 && NvrBytes(ts) == Some(bytes))
  {
    hide FixedBytes, FixedRead, NvrBytes, NvrReads, Increasing;
    if tag == 0 { FixedIff(bytes, ts); } else { NvrReadsIff(bytes, ts); }
  }

  /** Storing then loading returns the timestamps, and nothing else can load. */
  lemma StoredRoundTrip(ts: seq<I64>, us: seq<I64>)
    requires Legal(ts)
    ensures Loads(Chosen(ts).Tag(), Stored(ts), |ts|, ts[0], ts[|ts| - 1], us) <==> us == ts
  {
    hide FixedBytes, FixedRead, NvrBytes, NvrReads, Increasing;
    FixedIff(FixedBytes(ts), ts);
    if Chosen(ts).NvrEncoding? { NvrReadsIff(Stored(ts), ts); }
    if Loads(Chosen(ts).Tag(), Stored(ts), |ts|, ts[0], ts[|ts| - 1], us) && Chosen(ts).NvrEncoding? {
      NvrReadsOnce(Stored(ts), ts, us);
    }
  }
}
