/**
 The fixed-width column layout: an optional width byte, a null bitmap when there
 are nulls, then the non-null values at one width.

 `Encode` is the layout and `Decode` the checking reader; `DecodeIff` shows that the
 reader accepts exactly the layouts, each for the one column it lays out.
 */
module Fixed {
  import opened Prelude
  import opened Cells
  import opened LittleEndian

  const MAX_SECTION_ROWS: nat := 65_536

  function MinimumUIntWidth(maximum: U64): nat {
    if maximum <= U8_MAX then 1 else if maximum <= U16_MAX then 2 else if maximum <= U32_MAX then 4 else 8
  }

  // The largest unsigned value of a column, zero when there is none.
  function Maximum(cs: seq<Cell>): U64 {
    if cs == [] then 0 else
    var rest := Maximum(cs[1..]);
    if cs[0].UInt? && cs[0].value > rest then cs[0].value else rest
  }

  function Width(kind: ValueType, cs: seq<Cell>): nat {
    match kind
    case UIntType => MinimumUIntWidth(Maximum(cs))
    case Sq1Type => 1
    case F32Type => 4
  }

  // ----------------------------------------------------------------- bitmap

  function Bit(b: bool): nat { if b then 1 else 0 }

  function PackByte(flags: seq<bool>): nat {
    if flags == [] then 0 else Bit(flags[0]) + 2 * PackByte(flags[1..])
  }

  function PowerOfTwo(k: nat): nat { if k == 0 then 1 else 2 * PowerOfTwo(k - 1) }

  lemma {:induction false} PackBound(flags: seq<bool>)
    ensures PackByte(flags) < PowerOfTwo(|flags|)
  {
    if flags != [] { PackBound(flags[1..]); }
  }

  function Packed(flags: seq<bool>): Byte
    requires |flags| <= 8
  {
    PackBound(flags);
    PowersUpTo8();
    PackByte(flags)
  }

  lemma PowersUpTo8()
    ensures PowerOfTwo(1) == 2 && PowerOfTwo(2) == 4 && PowerOfTwo(3) == 8 && PowerOfTwo(4) == 16
    ensures PowerOfTwo(5) == 32 && PowerOfTwo(6) == 64 && PowerOfTwo(7) == 128 && PowerOfTwo(8) == 256
    ensures forall k: nat | k <= 8 :: PowerOfTwo(k) <= 256
  {
    assert PowerOfTwo(8) == 2 * PowerOfTwo(7) && PowerOfTwo(6) == 2 * PowerOfTwo(5);
    assert PowerOfTwo(4) == 2 * PowerOfTwo(3);
    forall k: nat | k <= 8 ensures PowerOfTwo(k) <= 256 {
      assert k == 0 || k == 1 || k == 2 || k == 3 || k == 4 || k == 5 || k == 6 || k == 7 || k == 8;
    }
  }

  function Bitmap(flags: seq<bool>): seq<Byte> {
    if |flags| <= 8 then (if flags == [] then [] else [Packed(flags)])
    else [Packed(flags[..8])] + Bitmap(flags[8..])
  }

  function BitmapLen(count: nat): nat { (count + 7) / 8 }

  lemma {:induction false} BitmapLength(flags: seq<bool>)
    ensures |Bitmap(flags)| == BitmapLen(|flags|)
  {
    if |flags| > 8 { BitmapLength(flags[8..]); }
  }

  // The low `count` bits of a byte.
  function UnpackByte(b: nat, count: nat): (flags: seq<bool>)
    ensures |flags| == count
  {
    if count == 0 then [] else [b % 2 == 1] + UnpackByte(b / 2, count - 1)
  }

  function Unpack(bitmap: seq<Byte>, count: nat): (flags: seq<bool>)
    requires |bitmap| == BitmapLen(count)
    ensures |flags| == count
  {
    if count == 0 then [] else
    if count <= 8 then UnpackByte(bitmap[0], count)
    else UnpackByte(bitmap[0], 8) + Unpack(bitmap[1..], count - 8)
  }

  lemma {:induction false} PackInverse(b: nat, flags: seq<bool>)
    ensures PackByte(flags) == b <==> b < PowerOfTwo(|flags|) && UnpackByte(b, |flags|) == flags
  {
    if flags != [] {
      PackInverse(b / 2, flags[1..]);
      assert PackByte(flags) == b <==> b % 2 == Bit(flags[0]) && b / 2 == PackByte(flags[1..]);
      hide PackByte;
      assert b < PowerOfTwo(|flags|) <==> b / 2 < PowerOfTwo(|flags| - 1);
      var u := UnpackByte(b, |flags|);
      assert u == [b % 2 == 1] + UnpackByte(b / 2, |flags| - 1);
      assert flags == [flags[0]] + flags[1..];
      assert u == flags <==> u[0] == flags[0] && u[1..] == flags[1..];
    }
  }

  // Padding bits above the last flag are zero.
  predicate Padded(bitmap: seq<Byte>, count: nat) {
    count % 8 != 0 && bitmap != [] ==> bitmap[|bitmap| - 1] < PowerOfTwo(count % 8)
  }

  // A single byte, possibly partly used.
  lemma ByteInverse(b: Byte, flags: seq<bool>)
    requires 1 <= |flags| <= 8
    ensures Packed(flags) == b <==> (|flags| < 8 ==> b < PowerOfTwo(|flags|)) && UnpackByte(b, |flags|) == flags
  {
    PackInverse(b, flags);
    PowersUpTo8();
    hide PackByte, UnpackByte;
  }

  lemma PaddedTail(bitmap: seq<Byte>, count: nat)
    requires count > 8 && |bitmap| == BitmapLen(count)
    ensures |bitmap[1..]| == BitmapLen(count - 8)
    ensures Padded(bitmap, count) <==> Padded(bitmap[1..], count - 8)
  {
    hide PowerOfTwo;
    assert (count - 8) % 8 == count % 8;
    assert bitmap[1..][|bitmap| - 2] == bitmap[|bitmap| - 1];
  }

  /** A bitmap packs its own flags exactly when its padding is zero. */
  lemma {:induction false} BitmapInverse(bitmap: seq<Byte>, flags: seq<bool>)
    requires |bitmap| == BitmapLen(|flags|)
    ensures Bitmap(flags) == bitmap <==> Padded(bitmap, |flags|) && Unpack(bitmap, |flags|) == flags
  {
    if |flags| > 8 {
      var head, tail := flags[..8], flags[8..];
      PaddedTail(bitmap, |flags|);
      BitmapInverse(bitmap[1..], tail);
      ByteInverse(bitmap[0], head);
      assert Bitmap(flags) == [Packed(head)] + Bitmap(tail);
      assert Unpack(bitmap, |flags|) == UnpackByte(bitmap[0], 8) + Unpack(bitmap[1..], |tail|);
      hide *;
      ConcatEqual(UnpackByte(bitmap[0], 8), Unpack(bitmap[1..], |tail|), head, tail);
      ConcatEqual([Packed(head)], Bitmap(tail), [bitmap[0]], bitmap[1..]);
      assert flags == head + tail && bitmap == [bitmap[0]] + bitmap[1..];
    } else if flags != [] {
      ByteInverse(bitmap[0], flags);
      assert bitmap == [bitmap[0]];
      hide UnpackByte, Packed, PowerOfTwo;
    }
  }

  lemma ConcatEqual<T>(a: seq<T>, b: seq<T>, c: seq<T>, d: seq<T>)
    requires |a| == |c|
    ensures a + b == c + d <==> a == c && b == d
  {
    if a + b == c + d {
      assert a == (a + b)[..|a|] && c == (c + d)[..|c|];
      assert b == (a + b)[|a|..] && d == (c + d)[|c|..];
    }
  }

  function Ones(b: nat): nat { if b == 0 then 0 else b % 2 + Ones(b / 2) }

  function TotalOnes(bitmap: seq<Byte>): nat {
    if bitmap == [] then 0 else Ones(bitmap[0]) + TotalOnes(bitmap[1..])
  }

  function Trues(flags: seq<bool>): nat {
    if flags == [] then 0 else Bit(flags[0]) + Trues(flags[1..])
  }

  lemma {:induction false} OnesOfPacked(flags: seq<bool>)
    ensures Ones(PackByte(flags)) == Trues(flags)
  {
    if flags != [] {
      OnesOfPacked(flags[1..]);
      var p := PackByte(flags);
      assert p / 2 == PackByte(flags[1..]) && p % 2 == Bit(flags[0]);
    }
  }

  lemma {:induction false} TruesConcat(a: seq<bool>, b: seq<bool>)
    ensures Trues(a + b) == Trues(a) + Trues(b)
  {
    if a == [] {
      assert a + b == b;
    } else {
      assert (a + b)[1..] == a[1..] + b;
      TruesConcat(a[1..], b);
    }
  }

  lemma {:induction false} OnesOfBitmap(flags: seq<bool>)
    ensures TotalOnes(Bitmap(flags)) == Trues(flags)
  {
    if |flags| > 8 {
      OnesOfBitmap(flags[8..]);
      OnesOfPacked(flags[..8]);
      TruesConcat(flags[..8], flags[8..]);
      assert flags == flags[..8] + flags[8..];
      assert Bitmap(flags)[1..] == Bitmap(flags[8..]);
    } else if flags != [] {
      OnesOfPacked(flags);
      assert [Packed(flags)][1..] == [];
    }
  }

  predicate BitmapOk(bitmap: seq<Byte>, count: nat, nulls: nat) {
    |bitmap| == BitmapLen(count) && Padded(bitmap, count) && TotalOnes(bitmap) == nulls
  }

  // ----------------------------------------------------------------- values

  function CellBytes(c: Cell, width: nat): seq<Byte> {
    match c
    case Null => []
    case UInt(v) => Le(v, width)
    case Sq1(v) => Le(v, width)
    case F32(v) => Le(v, width)
  }

  function ValueBytes(cs: seq<Cell>, width: nat): seq<Byte> {
    if cs == [] then [] else CellBytes(cs[0], width) + ValueBytes(cs[1..], width)
  }

  function FlagsOf(cs: seq<Cell>): seq<bool> {
    if cs == [] then [] else [cs[0].Null?] + FlagsOf(cs[1..])
  }

  lemma {:induction false} FlagsMeaning(cs: seq<Cell>)
    ensures |FlagsOf(cs)| == |cs|
    ensures forall i | 0 <= i < |cs| :: FlagsOf(cs)[i] == cs[i].Null?
    ensures Trues(FlagsOf(cs)) == NullCount(cs)
  {
    if cs != [] {
      FlagsMeaning(cs[1..]);
      assert FlagsOf(cs)[1..] == FlagsOf(cs[1..]);
      assert forall i | 1 <= i < |cs| :: FlagsOf(cs)[i] == FlagsOf(cs[1..])[i - 1];
    }
  }

  predicate Fits(cs: seq<Cell>, width: nat) {
    forall i | 0 <= i < |cs| :: cs[i].UInt? ==> cs[i].value < Capacity(width)
  }

  // The widths a kind may use.
  predicate LegalWidth(kind: ValueType, width: nat) {
    match kind case UIntType => width in {1, 2, 4, 8} case Sq1Type => width == 1 case F32Type => width == 4
  }

  function ReadCell(kind: ValueType, bs: seq<Byte>): Option<Cell>
    requires LegalWidth(kind, |bs|)
  {
    var n := FromLe(bs);
    LeInverse(n, bs);
    WidthCapacities();
    match kind
    case UIntType => assert n <= U64_MAX; Some(UInt(n))
    case Sq1Type => if n == 255 then None else Some(Sq1(n))
    case F32Type => Some(F32(n))
  }

  lemma ReadCellInverse(kind: ValueType, c: Cell, bs: seq<Byte>)
    requires LegalWidth(kind, |bs|)
    ensures ReadCell(kind, bs) == Some(c) <==>
            !c.Null? && Matches(kind, c) && (c.UInt? ==> c.value < Capacity(|bs|)) && CellBytes(c, |bs|) == bs
  {
    WidthCapacities();
    LeInverse(FromLe(bs), bs);
    match c {
      case Null =>
      case UInt(v) => LeInverse(v, bs);
      case Sq1(v) => LeInverse(v, bs);
      case F32(v) => LeInverse(v, bs);
    }
  }

  function ReadCells(kind: ValueType, width: nat, flags: seq<bool>, bs: seq<Byte>): Option<seq<Cell>>
    requires LegalWidth(kind, width)
    decreases |flags|
  {
    if flags == [] then (if bs == [] then Some([]) else None)
    else if flags[0] then
      match ReadCells(kind, width, flags[1..], bs) case None => None case Some(rest) => Some([Null] + rest)
    else if |bs| < width then None
    else match ReadCell(kind, bs[..width])
      case None => None
      case Some(c) => match ReadCells(kind, width, flags[1..], bs[width..])
        case None => None
        case Some(rest) => Some([c] + rest)
  }

  lemma {:induction false} CellBytesLength(kind: ValueType, c: Cell, width: nat)
    ensures |CellBytes(c, width)| == if c.Null? then 0 else width
  {
    match c {
      case Null =>
      case UInt(v) => LeLength(v, width);
      case Sq1(v) => LeLength(v, width);
      case F32(v) => LeLength(v, width);
    }
  }

  lemma {:induction false} ValueBytesLength(cs: seq<Cell>, width: nat)
    ensures |ValueBytes(cs, width)| == (|cs| - NullCount(cs)) * width
  {
    if cs != [] {
      ValueBytesLength(cs[1..], width);
      CellBytesLength(UIntType, cs[0], width);
      if !cs[0].Null? { MulStep(|cs| - 1 - NullCount(cs[1..]), width); }
    }
  }

  lemma MulStep(n: int, w: nat)
    ensures (n + 1) * w == n * w + w
  {
  }

  // A column whose layout is these flags and value bytes.
  predicate LaidOut(kind: ValueType, width: nat, flags: seq<bool>, bs: seq<Byte>, cs: seq<Cell>) {
    FlagsOf(cs) == flags && Typed(kind, cs) && Fits(cs, width) && ValueBytes(cs, width) == bs
  }

  lemma LaidOutCons(kind: ValueType, width: nat, flags: seq<bool>, bs: seq<Byte>, cs: seq<Cell>)
    requires cs != [] && flags != [] && (cs[0].Null? || width <= |bs|)
    ensures LaidOut(kind, width, flags, bs, cs) <==>
            && flags[0] == cs[0].Null? && Matches(kind, cs[0]) && (cs[0].UInt? ==> cs[0].value < Capacity(width))
            && CellBytes(cs[0], width) == (if cs[0].Null? then [] else bs[..width])
            && LaidOut(kind, width, flags[1..], if cs[0].Null? then bs else bs[width..], cs[1..])
  {
    CellBytesLength(kind, cs[0], width);
    hide CellBytes, Matches, Capacity;
    var k := if cs[0].Null? then 0 else width;
    assert bs == bs[..k] + bs[k..];
    ConcatEqual(CellBytes(cs[0], width), ValueBytes(cs[1..], width), bs[..k], bs[k..]);
    ConcatEqual([cs[0].Null?], FlagsOf(cs[1..]), [flags[0]], flags[1..]);
    assert flags == [flags[0]] + flags[1..];
    assert forall i | 0 <= i < |cs| - 1 :: cs[1..][i] == cs[i + 1];
    assert forall i | 1 <= i < |cs| :: cs[i] == cs[1..][i - 1];
  }

  lemma {:induction false} ReadInverse(kind: ValueType, width: nat, flags: seq<bool>, bs: seq<Byte>, cs: seq<Cell>)
    requires LegalWidth(kind, width)
    ensures ReadCells(kind, width, flags, bs) == Some(cs) <==> LaidOut(kind, width, flags, bs, cs)
    decreases |flags|
  {
    if flags == [] || cs == [] {
      FlagsMeaning(cs);
    } else if !cs[0].Null? && |bs| < width {
      CellBytesLength(kind, cs[0], width);
      assert LaidOut(kind, width, flags, bs, cs) ==> |ValueBytes(cs, width)| >= width;
    } else {
      LaidOutCons(kind, width, flags, bs, cs);
      var k := if cs[0].Null? then 0 else width;
      ReadInverse(kind, width, flags[1..], bs[k..], cs[1..]);
      assert k == 0 ==> bs[k..] == bs;
      assert cs == [cs[0]] + cs[1..];
      if !cs[0].Null? { ReadCellInverse(kind, cs[0], bs[..width]); }
      ReadConsShape(kind, width, flags, bs, cs);
    }
  }

  lemma ReadConsShape(kind: ValueType, width: nat, flags: seq<bool>, bs: seq<Byte>, cs: seq<Cell>)
    requires LegalWidth(kind, width) && cs != [] && flags != [] && (cs[0].Null? || width <= |bs|)
    ensures ReadCells(kind, width, flags, bs) == Some(cs) <==>
            && flags[0] == cs[0].Null?
            && (!cs[0].Null? ==> ReadCell(kind, bs[..width]) == Some(cs[0]))
            && ReadCells(kind, width, flags[1..], if cs[0].Null? then bs else bs[width..]) == Some(cs[1..])
  {
    hide Capacity, FromLe, Le;
    assert cs == [cs[0]] + cs[1..];
    if !flags[0] && width <= |bs| {
      match ReadCell(kind, bs[..width]) {
        case Some(c) => assert !c.Null?;
        case None =>
      }
    }
  }

  // ------------------------------------------------------------- whole column

  function Header(kind: ValueType, width: nat): seq<Byte>
    requires width <= 8
  {
    if kind.UIntType? then [width] else []
  }

  function NullBitmap(cs: seq<Cell>): seq<Byte> {
    if NullCount(cs) == 0 then [] else Bitmap(FlagsOf(cs))
  }

  function Encode(kind: ValueType, cs: seq<Cell>): seq<Byte> {
    var width := Width(kind, cs);
    Header(kind, width) + NullBitmap(cs) + ValueBytes(cs, width)
  }

  function FixedLen(kind: ValueType, width: nat, facts: nat, nulls: nat): nat
    requires nulls <= facts
  {
    (if kind.UIntType? then 1 else 0) + (if nulls == 0 then 0 else BitmapLen(facts)) + (facts - nulls) * width
  }

  lemma EncodeLength(kind: ValueType, cs: seq<Cell>)
    ensures NullCount(cs) <= |cs|
    ensures |Encode(kind, cs)| == FixedLen(kind, Width(kind, cs), |cs|, NullCount(cs))
  {
    NullCountBound(cs);
    ValueBytesLength(cs, Width(kind, cs));
    FlagsMeaning(cs);
    BitmapLength(FlagsOf(cs));
  }

  // Columns the coder accepts.
  predicate Legal(kind: ValueType, cs: seq<Cell>) { 1 <= |cs| <= 65_536 && Typed(kind, cs) }

  // The column a reader must return for these bytes and directory counts.
  predicate Decodes(kind: ValueType, bytes: seq<Byte>, facts: nat, nulls: nat, cs: seq<Cell>) {
    Legal(kind, cs) && |cs| == facts && NullCount(cs) == nulls && Encode(kind, cs) == bytes
  }

  // Width byte, its length, and what remains; `None` when the width is not legal.
  function WidthOf(kind: ValueType, bytes: seq<Byte>): Option<nat> {
    match kind
    case UIntType => if bytes != [] && bytes[0] in {1, 2, 4, 8} then Some(bytes[0]) else None
    case Sq1Type => Some(1)
    case F32Type => Some(4)
  }

  function HeaderLen(kind: ValueType): nat { if kind.UIntType? then 1 else 0 }

  function NoFlags(count: nat): seq<bool> { seq(count, _ => false) }

  /** The checks of the reader, in order. */
  function Decode(kind: ValueType, bytes: seq<Byte>, facts: nat, nulls: nat): Option<seq<Cell>> {
    if facts == 0 || facts > MAX_SECTION_ROWS || nulls > facts then None else
    match WidthOf(kind, bytes)
    case None => None
    case Some(width) =>
      if |bytes| != FixedLen(kind, width, facts, nulls) then None else
      var start, len := HeaderLen(kind), if nulls == 0 then 0 else BitmapLen(facts);
      ProductNonNegative(facts - nulls, width);
      var bitmap := bytes[start..start + len];
      if nulls != 0 && !BitmapOk(bitmap, facts, nulls) then None else
      var flags := if nulls == 0 then NoFlags(facts) else Unpack(bitmap, facts);
      match ReadCells(kind, width, flags, bytes[start + len..])
      case None => None
      case Some(cs) => if kind.UIntType? && width != MinimumUIntWidth(Maximum(cs)) then None else Some(cs)
  }

  lemma ProductNonNegative(a: nat, b: nat)
    ensures a * b >= 0
  {
  }

  lemma {:induction false} MaximumFits(cs: seq<Cell>, width: nat)
    ensures Fits(cs, width) <==> (forall i | 0 <= i < |cs| :: !cs[i].UInt?) || Maximum(cs) < Capacity(width)
  {
    CapacityPositive(width);
    hide Capacity;
    if cs != [] {
      MaximumFits(cs[1..], width);
      MaximumReached(cs);
      assert forall i | 0 <= i < |cs| - 1 :: cs[1..][i] == cs[i + 1];
      assert forall i | 1 <= i < |cs| :: cs[i] == cs[1..][i - 1];
    }
  }

  lemma {:induction false} CapacityPositive(width: nat)
    ensures Capacity(width) > 0
  {
    if width > 0 { CapacityPositive(width - 1); }
  }

  lemma {:induction false} MaximumReached(cs: seq<Cell>)
    ensures forall i | 0 <= i < |cs| && cs[i].UInt? :: cs[i].value <= Maximum(cs)
    ensures Maximum(cs) == 0 || exists i :: 0 <= i < |cs| && cs[i] == UInt(Maximum(cs))
  {
    if cs != [] {
      MaximumReached(cs[1..]);
      assert forall i | 1 <= i < |cs| :: cs[i] == cs[1..][i - 1];
      if Maximum(cs) != 0 && !(cs[0].UInt? && cs[0].value == Maximum(cs)) {
        var i :| 0 <= i < |cs| - 1 && cs[1..][i] == UInt(Maximum(cs[1..]));
        assert cs[i + 1] == UInt(Maximum(cs));
      }
    }
  }

  lemma WidthFits(kind: ValueType, cs: seq<Cell>)
    requires Typed(kind, cs)
    ensures Fits(cs, Width(kind, cs)) && LegalWidth(kind, Width(kind, cs))
  {
    MaximumFits(cs, Width(kind, cs));
    WidthCapacities();
    hide Capacity, Maximum;
  }

  /** A width of unsigned values that holds each of them, when no smaller legal one does. */
  predicate Minimal(cs: seq<Cell>, width: nat) {
    width in {1, 2, 4, 8} && Fits(cs, width) && forall v | v in {1, 2, 4, 8} && v < width :: !Fits(cs, v)
  }

  lemma WidthIsMinimal(cs: seq<Cell>)
    ensures Minimal(cs, Width(UIntType, cs))
  {
    WidthCapacities();
    MaximumNone(cs);
    forall v: nat { MaximumFits(cs, v); }
    hide Capacity, Maximum, Fits;
  }

  lemma {:induction false} MaximumNone(cs: seq<Cell>)
    ensures (forall i | 0 <= i < |cs| :: !cs[i].UInt?) ==> Maximum(cs) == 0
  {
    if cs != [] {
      MaximumNone(cs[1..]);
      assert forall i | 1 <= i < |cs| :: cs[i] == cs[1..][i - 1];
    }
  }

  /** No layout of the column with another legal width is shorter. */
  lemma ShortestLayout(cs: seq<Cell>, width: nat)
    requires width in {1, 2, 4, 8} && Fits(cs, width)
    ensures |Encode(UIntType, cs)| <= |Header(UIntType, width) + NullBitmap(cs) + ValueBytes(cs, width)|
  {
    WidthIsMinimal(cs);
    NullCountBound(cs);
    ValueBytesLength(cs, width);
    ValueBytesLength(cs, Width(UIntType, cs));
    hide Fits, ValueBytes, NullBitmap, Maximum, MinimumUIntWidth;
    MulMono(|cs| - NullCount(cs), Width(UIntType, cs), width);
  }

  lemma MulMono(n: nat, a: nat, b: nat)
    requires a <= b
    ensures n * a <= n * b
  {
  }

  /** The reader accepts exactly the layouts, and returns the column laid out. */
  lemma DecodeIff(kind: ValueType, bytes: seq<Byte>, facts: nat, nulls: nat, cs: seq<Cell>)
    ensures Decode(kind, bytes, facts, nulls) == Some(cs) <==> Decodes(kind, bytes, facts, nulls, cs)
  {
    hide ReadCells, ValueBytes, FlagsOf, Bitmap, Unpack, Maximum, MinimumUIntWidth, NullCount, Fits, Padded, TotalOnes,
         Typed;
    if Decode(kind, bytes, facts, nulls) == Some(cs) {
      DecodeSound(kind, bytes, facts, nulls, cs);
    }
    if Decodes(kind, bytes, facts, nulls, cs) {
      DecodeComplete(kind, bytes, facts, nulls, cs);
    }
  }

  // Splitting the input at the header and the bitmap.
  lemma Layout(kind: ValueType, bytes: seq<Byte>, width: nat, len: nat, h: seq<Byte>, m: seq<Byte>, v: seq<Byte>)
    requires |h| == HeaderLen(kind) && |m| == len && |h| + len <= |bytes|
    ensures h + m + v == bytes <==>
            h == bytes[..|h|] && m == bytes[|h|..|h| + len] && v == bytes[|h| + len..]
  {
    var a, b, c := bytes[..|h|], bytes[|h|..|h| + len], bytes[|h| + len..];
    assert bytes == a + b + c;
    ConcatEqual(h + m, v, a + b, c);
    ConcatEqual(h, m, a, b);
  }

  lemma DecodeSound(kind: ValueType, bytes: seq<Byte>, facts: nat, nulls: nat, cs: seq<Cell>)
    requires Decode(kind, bytes, facts, nulls) == Some(cs)
    ensures Decodes(kind, bytes, facts, nulls, cs)
  {
    hide ReadCells, ValueBytes, Bitmap, Unpack, Maximum, Padded, TotalOnes, Trues;
    var width, start, len := WidthOf(kind, bytes).value, HeaderLen(kind), if nulls == 0 then 0 else BitmapLen(facts);
    ProductNonNegative(facts - nulls, width);
    var bitmap, values := bytes[start..start + len], bytes[start + len..];
    var flags := if nulls == 0 then NoFlags(facts) else Unpack(bitmap, facts);
    ReadInverse(kind, width, flags, values, cs);
    FlagsMeaning(cs);
    if nulls == 0 {
      NoTrues(facts);
    } else {
      BitmapInverse(bitmap, flags);
      OnesOfBitmap(flags);
    }
    assert Width(kind, cs) == width;
    hide FlagsOf, MinimumUIntWidth, NullCount, Fits, Typed;
    Layout(kind, bytes, width, len, Header(kind, width), bitmap, values);
  }

  lemma {:induction false} NoTrues(count: nat)
    ensures Trues(NoFlags(count)) == 0
  {
    if count > 0 {
      NoTrues(count - 1);
      assert NoFlags(count)[1..] == NoFlags(count - 1);
    }
  }

  lemma {:induction false} AllFalse(flags: seq<bool>)
    requires Trues(flags) == 0
    ensures flags == NoFlags(|flags|)
  {
    if flags != [] {
      AllFalse(flags[1..]);
      assert flags == [flags[0]] + flags[1..];
      assert NoFlags(|flags|) == [false] + NoFlags(|flags| - 1);
    }
  }

  lemma DecodeComplete(kind: ValueType, bytes: seq<Byte>, facts: nat, nulls: nat, cs: seq<Cell>)
    requires Decodes(kind, bytes, facts, nulls, cs)
    ensures Decode(kind, bytes, facts, nulls) == Some(cs)
  {
    hide ReadCells, ValueBytes, Bitmap, Unpack, Maximum, Padded, TotalOnes, Trues, FlagsOf, Fits;
    var width := Width(kind, cs);
    EncodeLength(kind, cs);
    WidthFits(kind, cs);
    FlagsMeaning(cs);
    hide MinimumUIntWidth, Typed;
    var start, len, flags := HeaderLen(kind), if nulls == 0 then 0 else BitmapLen(facts), FlagsOf(cs);
    ProductNonNegative(facts - nulls, width);
    BitmapLength(flags);
    Layout(kind, bytes, width, len, Header(kind, width), NullBitmap(cs), ValueBytes(cs, width));
    if nulls == 0 {
      AllFalse(flags);
    } else {
      BitmapInverse(bytes[start..start + len], flags);
      OnesOfBitmap(flags);
    }
    ReadInverse(kind, width, flags, bytes[start + len..], cs);
  }
}
