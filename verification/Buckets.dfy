/**
 The accumulator of one time window: how many samples and nulls it saw, the least and the
 greatest value, and their sum.
 */
module Buckets {
  import opened Prelude
  import opened Cells
  import opened Catalog
  import Sequences

  const U128_MAX: int := 0xFFFF_FFFF_FFFF_FFFF_FFFF_FFFF_FFFF_FFFF

  datatype Sum = UIntSum(total: nat) | Sq1Sum(total: nat) | NotProvided
  datatype Bucket = Bucket(startTs: I64, endTs: I64, samples: nat, nulls: nat, min: Option<Cell>, max: Option<Cell>,
                           sum: Sum, partial: bool)

  // ------------------------------------------------------------------- order

  // A key that orders the bits of 32-bit floating-point numbers.
  function F32Key(bits: U32): U32 { if bits < 0x8000_0000 then bits + 0x8000_0000 else 0xFFFF_FFFF - bits }

  function Magnitude(bits: U32): U32 { bits % 0x8000_0000 }

  /**
   The total order of section 5.10 of IEEE 754-2019 on bit patterns: every negative number
   comes before every positive one, negative numbers by falling magnitude and positive ones
   by rising magnitude.
   */
  predicate TotalOrder(a: U32, b: U32) {
    var negativeA, negativeB := a >= 0x8000_0000, b >= 0x8000_0000;
    if negativeA != negativeB then negativeA
    else if negativeA then Magnitude(a) >= Magnitude(b) else Magnitude(a) <= Magnitude(b)
  }

  lemma KeyIsTotalOrder(a: U32, b: U32)
    ensures F32Key(a) <= F32Key(b) <==> TotalOrder(a, b)
    ensures F32Key(a) == F32Key(b) <==> a == b
  {
  }

  // The place of a value among those of its type.
  function Rank(c: Cell): nat {
    match c
    case Null => 0
    case UInt(value) => value
    case Sq1(code) => code
    case F32(bits) => F32Key(bits)
  }

  // Values of one type with the same rank are the same.
  lemma RankIsValue(kind: ValueType, a: Cell, b: Cell)
    requires Matches(kind, a) && Matches(kind, b) && !a.Null? && !b.Null? && Rank(a) == Rank(b)
    ensures a == b
  {
  }

  /** What a value of the one-byte type stands for, in ten-thousandths. */
  function Fp4(code: Sq1Code): nat {
    if code <= 50 then code * 1_000 else if code <= 78 then 50_000 + (code - 50) * 2_500
    else 120_000 + (code - 78) * 5_000
  }

  lemma Fp4Rises(a: Sq1Code, b: Sq1Code)
    requires a < b
    ensures Fp4(a) < Fp4(b) <= 1_000_000
  {
  }

  /** The scale of the codes: it starts at zero, rises by three step widths and ends at one million. */
  lemma Fp4Scale(code: nat)
    requires code < 254
    ensures Fp4(0) == 0 && Fp4(50) == 50_000 && Fp4(78) == 120_000 && Fp4(254) == 1_000_000
    ensures code < 50 ==> Fp4(code + 1) == Fp4(code) + 1_000
    ensures 50 <= code < 78 ==> Fp4(code + 1) == Fp4(code) + 2_500
    ensures 78 <= code ==> Fp4(code + 1) == Fp4(code) + 5_000
  {
  }

  function Amount(c: Cell): nat {
    match c
    case UInt(value) => value
    case Sq1(code) => Fp4(code)
    case _ => 0
  }

  function SumOf(cs: seq<Cell>): nat { if cs == [] then 0 else SumOf(cs[..|cs| - 1]) + Amount(Last(cs)) }

  lemma {:induction false} SumBound(cs: seq<Cell>)
    ensures SumOf(cs) <= |cs| * 0xFFFF_FFFF_FFFF_FFFF
    decreases |cs|
  {
    if cs != [] { SumBound(cs[..|cs| - 1]); }
  }

  /** The least value of a window: one of its values, and none comes before it. */
  predicate Least(cs: seq<Cell>, min: Option<Cell>) {
    match min
    case None => forall c | c in cs :: c.Null?
    case Some(m) => m in cs && !m.Null? && forall c | c in cs && !c.Null? :: Rank(m) <= Rank(c)
  }

  predicate Greatest(cs: seq<Cell>, max: Option<Cell>) {
    match max
    case None => forall c | c in cs :: c.Null?
    case Some(m) => m in cs && !m.Null? && forall c | c in cs && !c.Null? :: Rank(c) <= Rank(m)
  }

  /** A bucket that says exactly what a window holds. */
  predicate Summarizes(b: Bucket, kind: ValueType, cs: seq<Cell>) {
    && Typed(kind, cs) && b.samples == |cs| && b.nulls == NullCount(cs) && Least(cs, b.min) && Greatest(cs, b.max)
    && match kind
       case UIntType => b.sum == UIntSum(SumOf(cs))
       case Sq1Type => b.sum == Sq1Sum(SumOf(cs))
       case F32Type => b.sum == NotProvided
  }

  /**
   What the order of ranks means: the extrema are those of the amounts that values stand for,
   and those of floating-point numbers follow their total order.
   */
  lemma ExtremaMean(b: Bucket, kind: ValueType, cs: seq<Cell>)
    requires Summarizes(b, kind, cs)
    ensures forall c | c in cs && !c.Null? ::
      && b.min.Some? && b.max.Some?
      && match (b.min.value, c, b.max.value)
         case (F32(low), F32(bits), F32(high)) => TotalOrder(low, bits) && TotalOrder(bits, high)
         case (low, _, high) => Amount(low) <= Amount(c) <= Amount(high)
  {
    forall c | c in cs && !c.Null?
      ensures b.min.Some? && b.max.Some?
      ensures match (b.min.value, c, b.max.value)
              case (F32(low), F32(bits), F32(high)) => TotalOrder(low, bits) && TotalOrder(bits, high)
              case (low, _, high) => Amount(low) <= Amount(c) <= Amount(high)
    {
      OneType(kind, b.min.value, c);
      OneType(kind, c, b.max.value);
    }
  }

  // Two values of one type in their order.
  lemma OneType(kind: ValueType, a: Cell, b: Cell)
    requires Matches(kind, a) && Matches(kind, b) && !a.Null? && !b.Null? && Rank(a) <= Rank(b)
    ensures match (a, b)
            case (F32(x), F32(y)) => TotalOrder(x, y)
            case _ => Amount(a) <= Amount(b)
  {
    match (a, b) {
      case (F32(x), F32(y)) => KeyIsTotalOrder(x, y);
      case (Sq1(x), Sq1(y)) => if x < y { Fp4Rises(x, y); }
      case _ =>
    }
  }

  /** Nothing of a bucket is left open. */
  lemma SummaryIsUnique(a: Bucket, b: Bucket, kind: ValueType, cs: seq<Cell>)
    requires Summarizes(a, kind, cs) && Summarizes(b, kind, cs)
    requires a.startTs == b.startTs && a.endTs == b.endTs && a.partial == b.partial
    ensures a == b
  {
    if a.min.Some? && b.min.Some? { RankIsValue(kind, a.min.value, b.min.value); }
    if a.max.Some? && b.max.Some? { RankIsValue(kind, a.max.value, b.max.value); }
  }

  // Whether one value comes before another, both of one type.
  method Compare(kind: ValueType, left: Cell, right: Cell) returns (r: Result<int>)
    ensures r.Ok? <==> Matches(kind, left) && Matches(kind, right) && !left.Null? && !right.Null?
    ensures r.Ok? ==> (r.value <= 0 <==> Rank(left) <= Rank(right)) && (r.value >= 0 <==> Rank(left) >= Rank(right))
  {
    match (kind, left, right) {
      case (UIntType, UInt(a), UInt(b)) => return Ok(if a < b then -1 else if a == b then 0 else 1);
      case (Sq1Type, Sq1(a), Sq1(b)) => return Ok(if a < b then -1 else if a == b then 0 else 1);
      case (F32Type, F32(a), F32(b)) =>
        var x, y := F32Key(a), F32Key(b);
        return Ok(if x < y then -1 else if x == y then 0 else 1);
      case _ => return Err(Corruption);
    }
  }

  // The least value once one more is seen; the first of equals stays.
  method Lower(kind: ValueType, min: Option<Cell>, value: Cell, ghost seen: seq<Cell>) returns (r: Result<Option<Cell>>)
    requires Typed(kind, seen) && Least(seen, min) && Matches(kind, value) && !value.Null?
    ensures r.Ok? && Least(seen + [value], r.value)
  {
    if min.None? { return Ok(Some(value)); }
    var order := Compare(kind, min.value, value);
    if order.Err? { return Err(Corruption); }
    return Ok(Some(if order.value <= 0 then min.value else value));
  }

  method Higher(kind: ValueType, max: Option<Cell>, value: Cell, ghost seen: seq<Cell>)
    returns (r: Result<Option<Cell>>)
    requires Typed(kind, seen) && Greatest(seen, max) && Matches(kind, value) && !value.Null?
    ensures r.Ok? && Greatest(seen + [value], r.value)
  {
    if max.None? { return Ok(Some(value)); }
    var order := Compare(kind, max.value, value);
    if order.Err? { return Err(Corruption); }
    return Ok(Some(if order.value >= 0 then max.value else value));
  }

  lemma NullKeepsExtrema(seen: seq<Cell>, value: Cell, min: Option<Cell>, max: Option<Cell>)
    requires value.Null? && Least(seen, min) && Greatest(seen, max)
    ensures Least(seen + [value], min) && Greatest(seen + [value], max)
  {
  }

  lemma SumFits(seen: seq<Cell>, value: Cell)
    requires |seen| < U64_MAX
    ensures SumOf(seen) + Amount(value) <= U128_MAX && SumOf(seen + [value]) == SumOf(seen) + Amount(value)
  {
    SumBound(seen);
    Sequences.Unsnoc(seen, value);
  }

  class BucketBuilder {
    const startTs: I64
    const endTs: I64
    const kind: ValueType
    const partial: bool
    var samples: nat
    var nulls: nat
    var min: Option<Cell>
    var max: Option<Cell>
    var sum: nat
    // The values observed so far.
    ghost var seen: seq<Cell>

    ghost predicate Valid()
      reads this
    {
      && samples == |seen| <= U64_MAX && nulls == NullCount(seen) && sum == SumOf(seen)
      && Typed(kind, seen) && Least(seen, min) && Greatest(seen, max)
    }

    constructor (startTs: I64, endTs: I64, kind: ValueType, partial: bool)
      ensures Valid() && seen == []
      ensures this.startTs == startTs && this.endTs == endTs && this.kind == kind && this.partial == partial
    {
      this.startTs, this.endTs, this.kind, this.partial := startTs, endTs, kind, partial;
      samples, nulls, min, max, sum, seen := 0, 0, None, None, 0, [];
    }

    /** Adds a value; only one of another type is refused, as the sum cannot overflow before the count does. */
    method Observe(value: Cell) returns (r: Result<()>)
      requires Valid()
      modifies this
      ensures r.Ok? <==> Matches(kind, value) && old(samples) < U64_MAX
      ensures r.Ok? ==> Valid() && seen == old(seen) + [value]
    {
      hide Least, Greatest, NullCount, SumOf;
      if samples == U64_MAX { return Err(Limit); }
      samples := samples + 1;
      Sequences.Unsnoc(seen, value);
      NullCountSnoc(seen, value);
      SumFits(seen, value);
      if value.Null? {
        NullKeepsExtrema(seen, value, min, max);
        nulls := nulls + 1;
        seen := seen + [value];
        return Ok(());
      }
      if !Matches(kind, value) { return Err(Corruption); }
      var least := Lower(kind, min, value, seen);
      if least.Err? { return Err(Corruption); }
      var greatest := Higher(kind, max, value, seen);
      if greatest.Err? { return Err(Corruption); }
      min, max := least.value, greatest.value;
      var total := sum + Amount(value);
      if total > U128_MAX { return Err(Limit); }
      sum := total;
      seen := seen + [value];
      return Ok(());
    }

    /** The bucket of all values observed; there must be one. */
    method Finish() returns (r: Result<Bucket>)
      requires Valid()
      ensures r.Ok? <==> seen != []
      ensures r.Ok? ==> Summarizes(r.value, kind, seen)
      ensures r.Ok? ==> r.value.startTs == startTs && r.value.endTs == endTs && r.value.partial == partial
    {
      if samples == 0 { return Err(Corruption); }
      var total := match kind case UIntType => UIntSum(sum) case Sq1Type => Sq1Sum(sum) case F32Type => NotProvided;
      return Ok(Bucket(startTs, endTs, samples, nulls, min, max, total, partial));
    }
  }
}
