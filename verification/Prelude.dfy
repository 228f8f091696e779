/**
 Machine-integer domains, the error kinds of the engine and the two failure
 carrying datatypes used by every other module.
 */
module Prelude {

  const U8_MAX: int := 0xFF
  const U16_MAX: int := 0xFFFF
  const U32_MAX: int := 0xFFFF_FFFF
  const U64_MAX: int := 0xFFFF_FFFF_FFFF_FFFF
  const I64_MIN: int := -0x8000_0000_0000_0000
  const I64_MAX: int := 0x7FFF_FFFF_FFFF_FFFF
  const I128_MIN: int := -0x8000_0000_0000_0000_0000_0000_0000_0000
  const I128_MAX: int := 0x7FFF_FFFF_FFFF_FFFF_FFFF_FFFF_FFFF_FFFF

  type Byte = i: int | 0 <= i <= 0xFF
  type U32 = i: int | 0 <= i <= 0xFFFF_FFFF
  type U64 = i: int | 0 <= i <= 0xFFFF_FFFF_FFFF_FFFF
  type I64 = i: int | -0x8000_0000_0000_0000 <= i <= 0x7FFF_FFFF_FFFF_FFFF

  /** The error constructors of the engine; message texts are not modelled. */
  datatype Error = Limit | Corruption | Invalid | Poisoned | Io

  datatype Option<+T> = None | Some(value: T)

  datatype Result<+T> = Ok(value: T) | Err(error: Error) {
    predicate IsFailure() { Err? }
    function PropagateFailure<U>(): Result<U> requires Err? { Err(error) }
    function Extract(): T requires Ok? { value }
  }
}
