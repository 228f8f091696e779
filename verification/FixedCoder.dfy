/** The loops of the fixed-width coder, proved against `Fixed.Encode` and `Fixed.Decode`. */
module FixedCoding {
  import opened Prelude
  import opened Cells
  import opened LittleEndian
  import opened Fixed

  datatype Plan = Plan(kind: ValueType, width: nat, byteLen: nat, factCount: nat, nullCount: nat, valueCount: nat)

  function PlanOf(kind: ValueType, cs: seq<Cell>): Plan {
    NullCountBound(cs);
    Plan(kind, Width(kind, cs), |Encode(kind, cs)|, |cs|, NullCount(cs), |cs| - NullCount(cs))
  }

  lemma {:induction false} MaximumSnoc(cs: seq<Cell>, c: Cell)
    ensures Maximum(cs + [c]) == if c.UInt? && c.value > Maximum(cs) then c.value else Maximum(cs)
  {
    if cs == [] {
      assert [c][1..] == [];
    } else {
      assert (cs + [c])[1..] == cs[1..] + [c];
      MaximumSnoc(cs[1..], c);
    }
  }

  /** Counts facts and nulls and tracks the largest unsigned value. */
  class FixedMeasurer {
    const kind: ValueType
    var factCount: nat
    var nullCount: nat
    var maximum: U64
    ghost var seen: seq<Cell>

    ghost predicate Valid()
      reads this
    {
      Typed(kind, seen) && factCount == |seen| <= MAX_SECTION_ROWS && nullCount == NullCount(seen)
        && maximum == Maximum(seen)
    }

    constructor (kind: ValueType)
      ensures Valid() && this.kind == kind && seen == []
    {
      this.kind := kind;
      factCount, nullCount, maximum, seen := 0, 0, 0, [];
    }

    method Observe(fact: Cell) returns (r: Result<()>)
      requires Valid()
      modifies this
      ensures r.Ok? <==> old(|seen|) < MAX_SECTION_ROWS && Matches(kind, fact)
      ensures r.Ok? ==> Valid() && seen == old(seen) + [fact]
    {
      if factCount + 1 > MAX_SECTION_ROWS { return Err(Limit); }
      MaximumSnoc(seen, fact);
      NullCountSnoc(seen, fact);
      hide Maximum, NullCount;
      match fact {
        case Null => nullCount := nullCount + 1;
        case UInt(value) =>
          if !kind.UIntType? { return Err(Invalid); }
          if value > maximum { maximum := value; }
        case Sq1(_) => if !kind.Sq1Type? { return Err(Invalid); }
        case F32(_) => if !kind.F32Type? { return Err(Invalid); }
      }
      factCount := factCount + 1;
      seen := seen + [fact];
      return Ok(());
    }

    method Finish() returns (r: Result<Plan>)
      requires Valid()
      ensures r.Ok? <==> seen != []
      ensures r.Ok? ==> r.value == PlanOf(kind, seen)
    {
      if factCount == 0 { return Err(Invalid); }
      NullCountBound(seen);
      EncodeLength(kind, seen);
      hide Maximum, NullCount, Encode;
      var valueCount := factCount - nullCount;
      var width := match kind
        case UIntType => MinimumUIntWidth(maximum)
        case Sq1Type => 1
        case F32Type => 4;
      return Ok(Plan(kind, width, FixedLen(kind, width, factCount, nullCount), factCount, nullCount, valueCount));
    }
  }

  method Measure(facts: seq<Cell>, kind: ValueType) returns (r: Result<Plan>)
    ensures r.Ok? <==> Legal(kind, facts)
    ensures r.Ok? ==> r.value == PlanOf(kind, facts)
    ensures r.Ok? && kind.UIntType? ==> Minimal(facts, r.value.width)
  {
    hide NullCount, Maximum, Encode, Minimal;
    WidthIsMinimal(facts);
    var measurer := new FixedMeasurer(kind);
    for i := 0 to |facts|
      invariant measurer.Valid() && fresh(measurer) && measurer.kind == kind && measurer.seen == facts[..i]
    {
      assert facts[..i + 1] == facts[..i] + [facts[i]];
      var step := measurer.Observe(facts[i]);
      if step.Err? { return Err(step.error); }
    }
    assert facts[..|facts|] == facts;
    r := measurer.Finish();
  }

  // ---------------------------------------------------------------- writing

  function Zeros(n: nat): seq<Byte> { seq(n, _ => 0) }

  lemma {:induction false} PackSet(flags: seq<bool>, k: nat)
    requires k < |flags| && !flags[k]
    ensures PackByte(flags[k := true]) == PackByte(flags) + PowerOfTwo(k)
    ensures PowerOfTwo(k) > 0
    ensures (PackByte(flags) / PowerOfTwo(k)) % 2 == 0
  {
    PowerPositive(k);
    if k > 0 {
      PackSet(flags[1..], k - 1);
      assert flags[k := true][1..] == flags[1..][k - 1 := true];
      PowerPositive(k - 1);
      DivideTwice(PackByte(flags), PowerOfTwo(k - 1));
    } else {
      assert flags[0 := true][1..] == flags[1..];
    }
  }

  lemma {:induction false} PowerPositive(k: nat)
    ensures PowerOfTwo(k) > 0
  {
    if k > 0 { PowerPositive(k - 1); }
  }

  lemma DivideTwice(n: nat, p: nat)
    requires p > 0
    ensures n / (2 * p) == (n / 2) / p
  {
    var q, r := (n / 2) / p, (n / 2) % p;
    assert n / 2 == p * q + r;
    assert n == (2 * p) * q + (2 * r + n % 2) by { assert (2 * p) * q == 2 * (p * q); }
    QuotientUnique(n, 2 * p, q, 2 * r + n % 2);
  }

  lemma QuotientUnique(n: nat, d: nat, q: nat, r: nat)
    requires d > 0 && r < d && n == d * q + r
    ensures n / d == q
  {
    var t := n / d;
    assert n == d * t + n % d;
    Grows(d, t, q);
    Grows(d, q, t);
  }

  lemma Grows(d: nat, a: nat, b: nat)
    ensures a < b ==> d * a + d <= d * b
  {
    if a < b {
      var k := b - a - 1;
      Distribute(d, a + 1, k);
      Distribute(d, a, 1);
    }
  }

  lemma Distribute(d: nat, x: nat, y: nat)
    ensures d * (x + y) == d * x + d * y
    ensures d * y >= 0
  {
  }

  // The bitwise or of a byte and the mask of bit `k`.
  function OrBit(b: Byte, k: nat): Byte
    requires k < 8
  {
    PowersUpTo8();
    var mask := PowerOfTwo(k);
    if (b / mask) % 2 == 1 then b else (ClearBitFits(b, k); b + mask)
  }

  lemma ClearBitFits(b: Byte, k: nat)
    requires k < 8
    ensures PowerOfTwo(k) > 0
    ensures (b / PowerOfTwo(k)) % 2 == 0 ==> b + PowerOfTwo(k) <= 255
  {
    PowersUpTo8();
    assert k == 0 || k == 1 || k == 2 || k == 3 || k == 4 || k == 5 || k == 6 || k == 7;
    hide PowerOfTwo;
  }

  // Setting a flag ors its bit into one byte of the bitmap.
  lemma {:induction false} BitmapSet(flags: seq<bool>, i: nat)
    requires i < |flags| && !flags[i]
    ensures |Bitmap(flags)| == BitmapLen(|flags|) > i / 8
    ensures Bitmap(flags[i := true]) == Bitmap(flags)[i / 8 := OrBit(Bitmap(flags)[i / 8], i % 8)]
  {
    BitmapLength(flags);
    var marked := flags[i := true];
    if |flags| <= 8 {
      SetInByte(flags, i);
    } else if i < 8 {
      SetInByte(flags[..8], i);
      assert marked[..8] == flags[..8][i := true] && marked[8..] == flags[8..];
    } else {
      BitmapSet(flags[8..], i - 8);
      assert marked[..8] == flags[..8] && marked[8..] == flags[8..][i - 8 := true];
      assert (i - 8) / 8 == i / 8 - 1 && (i - 8) % 8 == i % 8;
    }
  }

  lemma SetInByte(flags: seq<bool>, i: nat)
    requires |flags| <= 8 && i < |flags| && !flags[i]
    ensures i % 8 == i && i / 8 == 0
    ensures Packed(flags[i := true]) == OrBit(Packed(flags), i)
  {
    PackSet(flags, i);
    hide PackByte, PowerOfTwo;
  }

  /** Sets one bit of the bitmap that starts at `start`. */
  method SetBitmapBit(output: array<Byte>, start: nat, index: nat, ghost flags: seq<bool>)
    requires index < |flags| && !flags[index]
    requires start + BitmapLen(|flags|) <= output.Length
    requires output[..][start..start + BitmapLen(|flags|)] == Bitmap(flags)
    modifies output
    ensures |Bitmap(flags[index := true])| == BitmapLen(|flags|)
    ensures output[..] == Splice(old(output[..]), start, Bitmap(flags[index := true]))
  {
    BitmapSet(flags, index);
    hide Bitmap, OrBit;
    var byte := start + index / 8;
    ghost var was := output[..];
    output[byte] := OrBit(output[byte], index % 8);
    assert output[..] == was[byte := output[byte]];
    SpliceByte(was, start, Bitmap(flags), index / 8, output[byte]);
  }

  // Overwrites the middle of a buffer.
  ghost function Splice(s: seq<Byte>, at: nat, middle: seq<Byte>): seq<Byte>
    requires at + |middle| <= |s|
  {
    s[..at] + middle + s[at + |middle|..]
  }

  lemma SpliceByte(was: seq<Byte>, at: nat, middle: seq<Byte>, k: nat, b: Byte)
    requires at + |middle| <= |was| && was[at..at + |middle|] == middle && k < |middle|
    ensures was[at + k] == middle[k]
    ensures was[at + k := b] == Splice(was, at, middle[k := b])
  {
    assert was[at..at + |middle|][k] == was[at + k];
    var whole := Splice(was, at, middle);
    assert whole == was;
    assert whole[at + k := b] == Splice(was, at, middle[k := b]);
  }

  // Slices of a spliced buffer: outside the middle, the middle, and up to its end.
  lemma SpliceOutside(s: seq<Byte>, at: nat, middle: seq<Byte>, x: nat, y: nat)
    requires at + |middle| <= |s| && x <= y <= |s| && (y <= at || at + |middle| <= x)
    ensures |Splice(s, at, middle)| == |s|
    ensures Splice(s, at, middle)[x..y] == s[x..y]
  {
  }

  lemma SpliceInside(s: seq<Byte>, at: nat, middle: seq<Byte>, x: nat)
    requires x <= at && at + |middle| <= |s|
    ensures |Splice(s, at, middle)| == |s|
    ensures Splice(s, at, middle)[x..at + |middle|] == s[x..at] + middle
  {
  }

  /** Writes one non-null value; fails when it does not fit or changed type. */
  method WriteValue(fact: Cell, kind: ValueType, width: nat, output: array<Byte>, offset: nat) returns (r: Result<nat>)
    requires offset <= output.Length && LegalWidth(kind, width)
    modifies output
    ensures r.Ok? <==> !fact.Null? && Matches(kind, fact) && offset + width <= output.Length
    ensures r.Ok? ==> r.value == offset + width
    ensures r.Ok? ==>
      |CellBytes(fact, width)| == width && output[..] == Splice(old(output[..]), offset, CellBytes(fact, width))
  {
    if fact.Null? || !Matches(kind, fact) { return Err(Corruption); }
    var end := offset + width;
    if end > output.Length { return Err(Corruption); }
    var source := match fact case UInt(v) => Le(v, width) case Sq1(v) => Le(v, width) case F32(v) => Le(v, width);
    CellBytesLength(kind, fact, width);
    hide Le;
    ghost var was := output[..];
    forall i | 0 <= i < width { output[offset + i] := source[i]; }
    assert output[..] == Splice(was, offset, source);
    return Ok(end);
  }

  // The null bitmap with only the flags of a prefix set.
  ghost function PartialBitmap(cs: seq<Cell>, i: nat): seq<Byte>
    requires i <= |cs|
  {
    if NullCount(cs) == 0 then [] else Bitmap(FlagsOf(cs[..i]) + NoFlags(|cs| - i))
  }

  lemma PartialBitmapLength(cs: seq<Cell>, i: nat)
    requires i <= |cs|
    ensures |PartialBitmap(cs, i)| == if NullCount(cs) == 0 then 0 else BitmapLen(|cs|)
  {
    FlagsMeaning(cs[..i]);
    BitmapLength(FlagsOf(cs[..i]) + NoFlags(|cs| - i));
    hide Bitmap, FlagsOf;
  }

  lemma {:induction false} ValueBytesSplit(cs: seq<Cell>, i: nat, width: nat)
    requires i <= |cs|
    ensures ValueBytes(cs, width) == ValueBytes(cs[..i], width) + ValueBytes(cs[i..], width)
  {
    hide CellBytes;
    if i == 0 {
      assert cs[0..] == cs && cs[..0] == [];
    } else {
      ValueBytesSplit(cs[1..], i - 1, width);
      assert cs[..i][1..] == cs[1..][..i - 1] && cs[1..][i - 1..] == cs[i..];
      assert ValueBytes(cs, width) == CellBytes(cs[0], width) + ValueBytes(cs[1..], width);
      assert ValueBytes(cs[..i], width) == CellBytes(cs[0], width) + ValueBytes(cs[..i][1..], width);
      hide ValueBytes;
    }
  }

  lemma ValueBytesNext(cs: seq<Cell>, i: nat, width: nat)
    requires i < |cs|
    ensures ValueBytes(cs[..i + 1], width) == ValueBytes(cs[..i], width) + CellBytes(cs[i], width)
    ensures |ValueBytes(cs[..i], width) + CellBytes(cs[i], width)| <= |ValueBytes(cs, width)|
  {
    hide CellBytes;
    ValueBytesSplit(cs, i + 1, width);
    ValueBytesSplit(cs[..i + 1], i, width);
    assert cs[..i + 1][..i] == cs[..i] && cs[..i + 1][i..] == [cs[i]];
    assert ValueBytes([cs[i]], width) == CellBytes(cs[i], width) by { assert [cs[i]][1..] == []; }
  }

  lemma PartialBitmapStart(cs: seq<Cell>)
    ensures PartialBitmap(cs, 0) == Zeros(if NullCount(cs) == 0 then 0 else BitmapLen(|cs|))
  {
    ZeroBitmap(|cs|);
    assert cs[..0] == [] && FlagsOf([]) + NoFlags(|cs|) == NoFlags(|cs|);
  }

  lemma {:induction false} ZeroBitmap(n: nat)
    ensures Bitmap(NoFlags(n)) == Zeros(BitmapLen(n))
  {
    if n <= 8 {
      ZeroPack(n);
    } else {
      assert NoFlags(n)[..8] == NoFlags(8) && NoFlags(n)[8..] == NoFlags(n - 8);
      ZeroPack(8);
      ZeroBitmap(n - 8);
      assert Zeros(BitmapLen(n)) == [0] + Zeros(BitmapLen(n - 8));
    }
  }

  lemma {:induction false} ZeroPack(n: nat)
    ensures PackByte(NoFlags(n)) == 0
  {
    if n > 0 {
      ZeroPack(n - 1);
      assert NoFlags(n)[1..] == NoFlags(n - 1);
    }
  }

  lemma PartialBitmapEnd(cs: seq<Cell>)
    ensures PartialBitmap(cs, |cs|) == NullBitmap(cs)
  {
    assert cs[..|cs|] == cs && FlagsOf(cs) + NoFlags(0) == FlagsOf(cs);
  }

  lemma FlagsSnoc(cs: seq<Cell>, c: Cell)
    ensures FlagsOf(cs + [c]) == FlagsOf(cs) + [c.Null?]
  {
    FlagsMeaning(cs);
    FlagsMeaning(cs + [c]);
    hide FlagsOf;
  }

  // A null sets its own flag; a value sets none.
  lemma NextFlags(cs: seq<Cell>, i: nat)
    requires i < |cs|
    ensures var flags := FlagsOf(cs[..i]) + NoFlags(|cs| - i);
            && |flags| == |cs| && !flags[i]
            && FlagsOf(cs[..i + 1]) + NoFlags(|cs| - i - 1) == if cs[i].Null? then flags[i := true] else flags
  {
    assert cs[..i + 1] == cs[..i] + [cs[i]];
    FlagsSnoc(cs[..i], cs[i]);
    FlagsMeaning(cs[..i]);
    hide FlagsOf;
    assert NoFlags(|cs| - i) == [false] + NoFlags(|cs| - i - 1);
  }

  lemma {:induction false} SomeNull(cs: seq<Cell>, i: nat)
    requires i < |cs| && cs[i].Null?
    ensures NullCount(cs) > 0
  {
    if i > 0 { SomeNull(cs[1..], i - 1); }
  }

  lemma NextBitmap(cs: seq<Cell>, i: nat)
    requires i < |cs|
    ensures var flags := FlagsOf(cs[..i]) + NoFlags(|cs| - i);
            && |flags| == |cs| && !flags[i]
            && if cs[i].Null? then NullCount(cs) > 0 && PartialBitmap(cs, i) == Bitmap(flags)
            && PartialBitmap(cs, i + 1) == Bitmap(flags[i := true])
               else PartialBitmap(cs, i + 1) == PartialBitmap(cs, i)
  {
    NextFlags(cs, i);
    if cs[i].Null? { SomeNull(cs, i); }
    hide FlagsOf, Bitmap, NullCount, NoFlags;
  }

  // The output after the first `i` facts: header, their flags, their values.
  ghost predicate Written(out: seq<Byte>, facts: seq<Cell>, kind: ValueType, i: nat, bitmapStart: nat, valueStart: nat,
                          offset: nat)
    requires i <= |facts|
  {
    && bitmapStart <= valueStart <= offset <= |out|
    && out[..bitmapStart] == Header(kind, Width(kind, facts))
    && out[bitmapStart..valueStart] == PartialBitmap(facts, i)
    && out[valueStart..offset] == ValueBytes(facts[..i], Width(kind, facts))
  }

  method EncodeFact(facts: seq<Cell>, kind: ValueType, i: nat, output: array<Byte>, bitmapStart: nat,
                    ghost valueStart: nat, offset: nat)
    returns (next: nat)
    requires i < |facts| && Legal(kind, facts)
    requires Written(output[..], facts, kind, i, bitmapStart, valueStart, offset)
    requires valueStart + |ValueBytes(facts, Width(kind, facts))| == output.Length
    modifies output
    ensures Written(output[..], facts, kind, i + 1, bitmapStart, valueStart, next)
  {
    var width := Width(kind, facts);
    WidthFits(kind, facts);
    NextBitmap(facts, i);
    ValueBytesNext(facts, i, width);
    CellBytesLength(kind, facts[i], width);
    ghost var was := output[..];
    WrittenBounds(was, facts, kind, i, bitmapStart, valueStart, offset);
    LegalAt(kind, facts, i);
    hide *;
    if facts[i].Null? {
      SetBitmapBit(output, bitmapStart, i, FlagsOf(facts[..i]) + NoFlags(|facts| - i));
      NullWritten(was, facts, kind, i, bitmapStart, valueStart, offset);
      return offset;
    }
    var written := WriteValue(facts[i], kind, width, output, offset);
    ValueWritten(was, facts, kind, i, bitmapStart, valueStart, offset);
    return written.value;
  }

  lemma LegalAt(kind: ValueType, cs: seq<Cell>, i: nat)
    requires Legal(kind, cs) && i < |cs|
    ensures Matches(kind, cs[i])
  {
  }

  lemma WrittenBounds(out: seq<Byte>, facts: seq<Cell>, kind: ValueType, i: nat, bitmapStart: nat, valueStart: nat,
                      offset: nat)
    requires i <= |facts| && Written(out, facts, kind, i, bitmapStart, valueStart, offset)
    ensures bitmapStart <= valueStart <= offset <= |out|
    ensures offset - valueStart == |ValueBytes(facts[..i], Width(kind, facts))|
    ensures out[bitmapStart..valueStart] == PartialBitmap(facts, i)
    ensures valueStart - bitmapStart == if NullCount(facts) == 0 then 0 else BitmapLen(|facts|)
  {
    hide ValueBytes, PartialBitmap, Width, Header, NullCount;
    PartialBitmapLength(facts, i);
  }

  lemma NullWritten(was: seq<Byte>, facts: seq<Cell>, kind: ValueType, i: nat, bitmapStart: nat, valueStart: nat,
                    offset: nat)
    requires i < |facts| && facts[i].Null?
    requires Written(was, facts, kind, i, bitmapStart, valueStart, offset)
    requires bitmapStart + |PartialBitmap(facts, i + 1)| == valueStart
    ensures Written(Splice(was, bitmapStart, PartialBitmap(facts, i + 1)), facts, kind, i + 1, bitmapStart, valueStart,
                    offset)
  {
    ValueBytesNext(facts, i, Width(kind, facts));
    CellBytesLength(kind, facts[i], Width(kind, facts));
    hide ValueBytes, PartialBitmap, Width, Header, CellBytes, Splice;
    SpliceOutside(was, bitmapStart, PartialBitmap(facts, i + 1), 0, bitmapStart);
    SpliceInside(was, bitmapStart, PartialBitmap(facts, i + 1), bitmapStart);
    SpliceOutside(was, bitmapStart, PartialBitmap(facts, i + 1), valueStart, offset);
    assert CellBytes(facts[i], Width(kind, facts)) == [];
  }

  lemma ValueWritten(was: seq<Byte>, facts: seq<Cell>, kind: ValueType, i: nat, bitmapStart: nat, valueStart: nat,
                     offset: nat)
    requires i < |facts| && !facts[i].Null? && offset + Width(kind, facts) <= |was|
    requires Written(was, facts, kind, i, bitmapStart, valueStart, offset)
    requires |CellBytes(facts[i], Width(kind, facts))| == Width(kind, facts)
    ensures Written(Splice(was, offset, CellBytes(facts[i], Width(kind, facts))), facts, kind, i + 1, bitmapStart,
                    valueStart,
                    offset + Width(kind, facts))
  {
    NextBitmap(facts, i);
    ValueBytesNext(facts, i, Width(kind, facts));
    hide ValueBytes, PartialBitmap, Width, Header, CellBytes, FlagsOf, Bitmap, NullCount, NoFlags, Splice;
    var middle := CellBytes(facts[i], Width(kind, facts));
    SpliceOutside(was, offset, middle, 0, bitmapStart);
    SpliceOutside(was, offset, middle, bitmapStart, valueStart);
    SpliceInside(was, offset, middle, valueStart);
  }

  lemma StartWritten(out: seq<Byte>, facts: seq<Cell>, kind: ValueType, valueStart: nat)
    requires |out| == |Encode(kind, facts)| && HeaderLen(kind) <= valueStart <= |out|
    requires valueStart == HeaderLen(kind) + if NullCount(facts) == 0 then 0 else BitmapLen(|facts|)
    requires out == Header(kind, Width(kind, facts)) + Zeros(|out| - HeaderLen(kind))
    ensures Written(out, facts, kind, 0, HeaderLen(kind), valueStart, valueStart)
    ensures valueStart + |ValueBytes(facts, Width(kind, facts))| == |out|
  {
    EncodeParts(kind, facts);
    PartialBitmapStart(facts);
    assert ValueBytes(facts[..0], Width(kind, facts)) == [];
    hide Encode, NullBitmap, ValueBytes, NullCount, Width, PartialBitmap;
    var h := HeaderLen(kind);
    assert |Header(kind, Width(kind, facts))| == h;
    hide Header, HeaderLen;
    SliceOfZeros(out, Header(kind, Width(kind, facts)), |out| - h, valueStart);
  }

  lemma SliceOfZeros(out: seq<Byte>, head: seq<Byte>, n: nat, to: nat)
    requires out == head + Zeros(n) && |head| <= to <= |out|
    ensures out[..|head|] == head && out[|head|..to] == Zeros(to - |head|) && out[to..to] == []
  {
  }

  lemma AllWritten(out: seq<Byte>, facts: seq<Cell>, kind: ValueType, valueStart: nat, offset: nat)
    requires Written(out, facts, kind, |facts|, HeaderLen(kind), valueStart, offset)
    requires valueStart + |ValueBytes(facts, Width(kind, facts))| == |out|
    ensures out == Encode(kind, facts) && offset == |out|
  {
    PartialBitmapEnd(facts);
    EncodeParts(kind, facts);
    assert facts[..|facts|] == facts;
    hide Encode, NullBitmap, ValueBytes, NullCount, Width, PartialBitmap, Header, HeaderLen;
    ThreeParts(out, HeaderLen(kind), valueStart);
  }

  lemma ThreeParts(out: seq<Byte>, x: nat, y: nat)
    requires x <= y <= |out|
    ensures out == out[..x] + out[x..y] + out[y..|out|]
  {
  }

  /** Writes exactly `Encode(facts)` whenever the plan and the buffer fit it. */
  method EncodeInto(facts: seq<Cell>, plan: Plan, output: array<Byte>) returns (r: Result<nat>)
    modifies output
    ensures r.Ok? <==> Legal(plan.kind, facts) && plan == PlanOf(plan.kind, facts) && output.Length == plan.byteLen
    ensures r.Ok? ==> r.value == output.Length && output[..] == Encode(plan.kind, facts)
  {
    var kind := plan.kind;
    var measured :- Measure(facts, kind);
    if measured != plan { return Err(Corruption); }
    if output.Length != plan.byteLen { return Err(Invalid); }
    EncodeParts(kind, facts);
    WidthFits(kind, facts);
    hide Encode, NullBitmap, ValueBytes, NullCount, Width, Written;
    forall i | 0 <= i < output.Length { output[i] := 0; }
    var offset: nat := 0;
    if kind.UIntType? {
      output[0] := plan.width;
      offset := 1;
    }
    assert output[..] == Header(kind, plan.width) + Zeros(output.Length - HeaderLen(kind));
    var bitmapStart := offset;
    if plan.nullCount != 0 { offset := offset + BitmapLen(plan.factCount); }
    ghost var valueStart := offset;
    StartWritten(output[..], facts, kind, valueStart);
    for i := 0 to |facts|
      invariant Written(output[..], facts, kind, i, bitmapStart, valueStart, offset)
    {
      offset := EncodeFact(facts, kind, i, output, bitmapStart, valueStart, offset);
    }
    AllWritten(output[..], facts, kind, valueStart, offset);
    return Ok(offset);
  }

  lemma EncodeParts(kind: ValueType, cs: seq<Cell>)
    ensures Encode(kind, cs) == Header(kind, Width(kind, cs)) + NullBitmap(cs) + ValueBytes(cs, Width(kind, cs))
    ensures |NullBitmap(cs)| == if NullCount(cs) == 0 then 0 else BitmapLen(|cs|)
  {
    FlagsMeaning(cs);
    BitmapLength(FlagsOf(cs));
    hide Bitmap, FlagsOf, ValueBytes, Maximum, MinimumUIntWidth;
  }
}
