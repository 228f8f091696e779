/** The checking loops of the fixed-width reader, proved against `Fixed.Decode`. */
module FixedDecoding {
  import opened Prelude
  import opened Cells
  import opened LittleEndian
  import opened Fixed
  import opened Prefixing
  import FixedCoding

  lemma {:induction false} UnpackByteAt(b: nat, count: nat, k: nat)
    requires k < count
    ensures PowerOfTwo(k) > 0
    ensures UnpackByte(b, count)[k] == ((b / PowerOfTwo(k)) % 2 == 1)
  {
    hide UnpackByte, PowerOfTwo;
    FixedCoding.PowerPositive(k);
    if k > 0 {
      UnpackByteAt(b / 2, count - 1, k - 1);
      UnpackShift(b, count, k);
      FixedCoding.DivideTwice(b, PowerOfTwo(k - 1));
    } else {
      UnpackFirst(b, count);
    }
  }

  lemma UnpackShift(b: nat, count: nat, k: nat)
    requires 0 < k < count
    ensures UnpackByte(b, count)[k] == UnpackByte(b / 2, count - 1)[k - 1] && PowerOfTwo(k) == 2 * PowerOfTwo(k - 1)
  {
  }

  lemma UnpackFirst(b: nat, count: nat)
    requires count > 0
    ensures UnpackByte(b, count)[0] == (b % 2 == 1) && PowerOfTwo(0) == 1
  {
  }

  lemma {:induction false} UnpackAt(bitmap: seq<Byte>, count: nat, i: nat)
    requires |bitmap| == BitmapLen(count) && i < count
    ensures PowerOfTwo(i % 8) > 0
    ensures Unpack(bitmap, count)[i] == ((bitmap[i / 8] / PowerOfTwo(i % 8)) % 2 == 1)
  {
    hide UnpackByte, PowerOfTwo;
    if count <= 8 {
      UnpackByteAt(bitmap[0], count, i);
    } else if i < 8 {
      UnpackByteAt(bitmap[0], 8, i);
    } else {
      UnpackAt(bitmap[1..], count - 8, i - 8);
      var j := i - 8;
      assert j / 8 == i / 8 - 1 && j % 8 == i % 8;
      assert bitmap[1..][j / 8] == bitmap[i / 8];
    }
  }

  method BitmapBit(bitmap: seq<Byte>, index: nat) returns (r: Result<bool>)
    ensures r.Ok? <==> index / 8 < |bitmap|
    ensures r.Ok? ==>
      forall count | index < count && BitmapLen(count) == |bitmap| :: r.value == Unpack(bitmap, count)[index]
  {
    forall count | index < count && BitmapLen(count) == |bitmap|
      ensures PowerOfTwo(index % 8) > 0 && index / 8 < |bitmap|
      ensures Unpack(bitmap, count)[index] == ((bitmap[index / 8] / PowerOfTwo(index % 8)) % 2 == 1)
    {
      UnpackAt(bitmap, count, index);
    }
    FixedCoding.PowerPositive(index % 8);
    hide PowerOfTwo, Unpack;
    if index / 8 >= |bitmap| { return Err(Corruption); }
    return Ok((bitmap[index / 8] / PowerOfTwo(index % 8)) % 2 == 1);
  }

  /** Length, zero padding and population count of a null bitmap. */
  method ValidateBitmap(bitmap: seq<Byte>, factCount: nat, nullCount: nat) returns (r: Result<()>)
    requires factCount > 0
    ensures r.Ok? <==> BitmapOk(bitmap, factCount, nullCount)
  {
    if |bitmap| != BitmapLen(factCount) { return Err(Corruption); }
    var tail := factCount % 8;
    if tail != 0 && bitmap[|bitmap| - 1] >= PowerOfTwo(tail) { return Err(Corruption); }
    var actual := 0;
    for i := 0 to |bitmap|
      invariant actual + TotalOnes(bitmap[i..]) == TotalOnes(bitmap)
    {
      assert bitmap[i..][1..] == bitmap[i + 1..];
      actual := actual + Ones(bitmap[i]);
    }
    if actual != nullCount { return Err(Corruption); }
    return Ok(());
  }

  /** Reads one value at `offset`. */
  method ReadValue(kind: ValueType, width: nat, bytes: seq<Byte>, offset: nat) returns (r: Result<(Cell, nat)>)
    requires LegalWidth(kind, width)
    ensures r.Ok? <==> offset + width <= |bytes| && ReadCell(kind, bytes[offset..offset + width]).Some?
    ensures r.Ok? ==> r.value == (ReadCell(kind, bytes[offset..offset + width]).value, offset + width)
  {
    var end := offset + width;
    if end > |bytes| { return Err(Corruption); }
    var source := bytes[offset..end];
    LeInverse(FromLe(source), source);
    WidthCapacities();
    hide FromLe, Le;
    var n := FromLe(source);
    match kind {
      case UIntType => return Ok((UInt(n), end));
      case Sq1Type =>
        if n == 255 { return Err(Corruption); }
        return Ok((Sq1(n), end));
      case F32Type => return Ok((F32(n), end));
    }
  }

  // One step of the reader at `index`, with the facts already read in front.
  lemma ReadOne(kind: ValueType, width: nat, flags: seq<bool>, index: nat, bytes: seq<Byte>, offset: nat,
                facts: seq<Cell>)
    requires LegalWidth(kind, width) && index < |flags| && offset <= |bytes|
    ensures Prepend(facts, ReadCells(kind, width, flags[index..], bytes[offset..])) ==
            if flags[index] then Prepend(facts + [Null], ReadCells(kind, width, flags[index + 1..], bytes[offset..]))
            else if offset + width > |bytes| then None
            else match ReadCell(kind, bytes[offset..offset + width])
              case None => None
              case Some(c) => Prepend(facts + [c], ReadCells(kind, width, flags[index + 1..], bytes[offset + width..]))
  {
    hide ReadCell, LegalWidth;
    var now, bs := flags[index..], bytes[offset..];
    assert now[1..] == flags[index + 1..];
    if now[0] {
      PrependSnoc(facts, Null, ReadCells(kind, width, now[1..], bs));
    } else if width <= |bs| {
      assert bs[..width] == bytes[offset..offset + width] && bs[width..] == bytes[offset + width..];
      match ReadCell(kind, bs[..width]) {
        case None =>
        case Some(c) => PrependSnoc(facts, c, ReadCells(kind, width, now[1..], bs[width..]));
      }
    }
  }

  // The next fact at `index` and where the reader stands after it.
  method ReadFact(kind: ValueType, width: nat, bytes: seq<Byte>, offset: nat, bitmap: seq<Byte>, count: nat, nulls: nat,
                  index: nat, facts: seq<Cell>) returns (r: Result<(Cell, nat)>)
    requires LegalWidth(kind, width) && offset <= |bytes| && index < count
    requires nulls != 0 ==> |bitmap| == BitmapLen(count)
    ensures r.Ok? ==> offset <= r.value.1 <= |bytes|
    ensures var flags := Flags(bitmap, count, nulls);
            Prepend(facts, ReadCells(kind, width, flags[index..], bytes[offset..])) ==
            if r.Err? then None
            else Prepend(facts + [r.value.0], ReadCells(kind, width, flags[index + 1..], bytes[r.value.1..]))
  {
    hide ReadCells, ReadCell, Unpack, Prepend, BitmapLen, LegalWidth, NoFlags;
    ReadOne(kind, width, Flags(bitmap, count, nulls), index, bytes, offset, facts);
    if nulls != 0 {
      var isNull := IsNull(bitmap, count, index);
      if isNull { return Ok((Null, offset)); }
    }
    NoFlagAt(count, index);
    r := ReadValue(kind, width, bytes, offset);
  }

  ghost function Flags(bitmap: seq<Byte>, count: nat, nulls: nat): (flags: seq<bool>)
    requires nulls != 0 ==> |bitmap| == BitmapLen(count)
    ensures |flags| == count
  {
    if nulls == 0 then NoFlags(count) else Unpack(bitmap, count)
  }

  lemma NoFlagAt(count: nat, index: nat)
    requires index < count
    ensures |NoFlags(count)| == count && !NoFlags(count)[index]
  {
  }

  method ReadFacts(kind: ValueType, width: nat, bytes: seq<Byte>, start: nat, bitmap: seq<Byte>, count: nat, nulls: nat)
    returns (r: Result<seq<Cell>>)
    requires LegalWidth(kind, width) && start <= |bytes|
    requires nulls != 0 ==> |bitmap| == BitmapLen(count)
    ensures match ReadCells(kind, width, Flags(bitmap, count, nulls), bytes[start..])
            case None => r.Err?
            case Some(cs) => if kind.UIntType? && width != MinimumUIntWidth(Maximum(cs)) then r.Err? else r == Ok(cs)
  {
    ghost var flags := Flags(bitmap, count, nulls);
    ghost var whole := ReadCells(kind, width, flags, bytes[start..]);
    var facts, offset, maximum := [], start, 0;
    StartRead(kind, width, flags, bytes, start);
    hide ReadCells, ReadCell, Unpack, MinimumUIntWidth, Maximum, Prepend, BitmapLen, LegalWidth, Flags;
    for index := 0 to count
      invariant |facts| == index && start <= offset <= |bytes| && maximum == Maximum(facts)
      invariant whole == Prepend(facts, ReadCells(kind, width, flags[index..], bytes[offset..]))
    {
      var read := ReadFact(kind, width, bytes, offset, bitmap, count, nulls, index, facts);
      if read.Err? { return Err(read.error); }
      var (value, next) := read.value;
      FixedCoding.MaximumSnoc(facts, value);
      if value.UInt? && value.value > maximum { maximum := value.value; }
      facts, offset := facts + [value], next;
    }
    EndRead(kind, width, flags[count..], bytes[offset..], facts);
    if offset != |bytes| { return Err(Corruption); }
    if kind.UIntType? && width != MinimumUIntWidth(maximum) { return Err(Corruption); }
    return Ok(facts);
  }

  method IsNull(bitmap: seq<Byte>, count: nat, index: nat) returns (b: bool)
    requires |bitmap| == BitmapLen(count) && index < count
    ensures b == Unpack(bitmap, count)[index]
  {
    hide Unpack;
    var bit := BitmapBit(bitmap, index);
    return bit.value;
  }

  lemma StartRead(kind: ValueType, width: nat, flags: seq<bool>, bytes: seq<Byte>, start: nat)
    requires LegalWidth(kind, width) && start <= |bytes|
    ensures Maximum([]) == 0 && flags[0..] == flags
    ensures ReadCells(kind, width, flags, bytes[start..]) == Prepend([], ReadCells(kind, width, flags, bytes[start..]))
  {
    hide ReadCells;
    var r := ReadCells(kind, width, flags, bytes[start..]);
    if r.Some? { assert [] + r.value == r.value; }
  }

  lemma EndRead(kind: ValueType, width: nat, flags: seq<bool>, bs: seq<Byte>, facts: seq<Cell>)
    requires LegalWidth(kind, width) && flags == []
    ensures Prepend(facts, ReadCells(kind, width, flags, bs)) == if bs == [] then Some(facts) else None
  {
    assert facts + [] == facts;
  }

  // The value width and the length of what announces it.
  method ReadHeader(kind: ValueType, bytes: seq<Byte>) returns (r: Result<(nat, nat)>)
    ensures r.Ok? <==> WidthOf(kind, bytes).Some?
    ensures r.Ok? ==>
      WidthOf(kind, bytes) == Some(r.value.0) && LegalWidth(kind, r.value.0) && r.value.1 == HeaderLen(kind)
  {
    match kind {
      case UIntType =>
        if bytes == [] { return Err(Corruption); }
        if bytes[0] !in {1, 2, 4, 8} { return Err(Corruption); }
        return Ok((bytes[0], 1));
      case Sq1Type => return Ok((1, 0));
      case F32Type => return Ok((4, 0));
    }
  }

  /** Reading succeeds exactly on layouts, and then returns the one column laid out. */
  method DecodeBytes(kind: ValueType, bytes: seq<Byte>, factCount: U32, nullCount: U32) returns (r: Result<seq<Cell>>)
    ensures r.Ok? <==> Decode(kind, bytes, factCount, nullCount).Some?
    ensures r.Ok? ==> Decodes(kind, bytes, factCount, nullCount, r.value)
    ensures r.Ok? && kind.UIntType? ==> bytes != [] && Minimal(r.value, bytes[0])
    ensures r.Err? ==> forall cs :: !Decodes(kind, bytes, factCount, nullCount, cs)
  {
    ForEveryColumn(kind, bytes, factCount, nullCount);
    WidthByte(bytes, factCount, nullCount);
    hide Decodes, Minimal, ReadCells, BitmapOk, Unpack, MinimumUIntWidth, Maximum, BitmapLen, NoFlags, WidthOf,
         LegalWidth;
    if factCount == 0 { return Err(Corruption); }
    if factCount > MAX_SECTION_ROWS { return Err(Limit); }
    if nullCount > factCount { return Err(Corruption); }
    var header :- ReadHeader(kind, bytes);
    var (width, headerLen) := header;
    if |bytes| != FixedLen(kind, width, factCount, nullCount) { return Err(Corruption); }
    ProductNonNegative(factCount - nullCount, width);
    var bitmapBytes := if nullCount == 0 then 0 else BitmapLen(factCount);
    var bitmapEnd := headerLen + bitmapBytes;
    var bitmap := bytes[headerLen..bitmapEnd];
    if nullCount != 0 {
      var _ :- ValidateBitmap(bitmap, factCount, nullCount);
    }
    assert nullCount != 0 ==> |bitmap| == BitmapLen(factCount);
    r := ReadFacts(kind, width, bytes, bitmapEnd, bitmap, factCount, nullCount);
  }

  // The width byte of a layout is its least width.
  lemma WidthByte(bytes: seq<Byte>, facts: nat, nulls: nat)
    ensures forall cs | Decodes(UIntType, bytes, facts, nulls, cs) :: bytes != [] && Minimal(cs, bytes[0])
  {
    hide NullBitmap, ValueBytes, Minimal;
    forall cs | Decodes(UIntType, bytes, facts, nulls, cs) ensures bytes != [] && Minimal(cs, bytes[0]) {
      WidthIsMinimal(cs);
    }
  }

  lemma ForEveryColumn(kind: ValueType, bytes: seq<Byte>, facts: nat, nulls: nat)
    ensures forall cs :: Decode(kind, bytes, facts, nulls) == Some(cs) <==> Decodes(kind, bytes, facts, nulls, cs)
  {
    hide Decode, Decodes;
    forall cs ensures Decode(kind, bytes, facts, nulls) == Some(cs) <==> Decodes(kind, bytes, facts, nulls, cs) {
      DecodeIff(kind, bytes, facts, nulls, cs);
    }
  }
}
