/** Cell values of a stream and the value types that interpret them. */
module Cells {
  import opened Prelude

  datatype ValueType = UIntType | Sq1Type | F32Type

  // Code 255 is reserved, so it is not a value of the one-byte type.
  type Sq1Code = i: int | 0 <= i <= 254

  datatype Cell = Null | UInt(value: U64) | Sq1(code: Sq1Code) | F32(bits: U32)

  predicate Matches(kind: ValueType, c: Cell) {
    match c
    case Null => true
    case UInt(_) => kind.UIntType?
    case Sq1(_) => kind.Sq1Type?
    case F32(_) => kind.F32Type?
  }

  predicate Typed(kind: ValueType, cs: seq<Cell>) { forall i | 0 <= i < |cs| :: Matches(kind, cs[i]) }

  function NullCount(cs: seq<Cell>): nat {
    if cs == [] then 0 else NullCount(cs[1..]) + (if cs[0].Null? then 1 else 0)
  }

  lemma {:induction false} NullCountSnoc(cs: seq<Cell>, c: Cell)
    ensures NullCount(cs + [c]) == NullCount(cs) + (if c.Null? then 1 else 0)
  {
    if cs == [] {
      assert [c][1..] == [];
    } else {
      assert (cs + [c])[1..] == cs[1..] + [c];
      NullCountSnoc(cs[1..], c);
    }
  }

  lemma {:induction false} NullCountBound(cs: seq<Cell>)
    ensures NullCount(cs) <= |cs|
  {
    if cs != [] { NullCountBound(cs[1..]); }
  }
}
