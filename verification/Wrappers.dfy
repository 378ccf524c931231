/** Failure-compatible wrappers and the machine integers shared by every component. */
module Wrappers {

  datatype Option<+T> = None | Some(value: T)

  datatype Result<+T, +E> = Ok(value: T) | Err(error: E)

  /** How the extension HTTP codec refuses an input. */
  datatype CodecError = Invalid | TooLarge

  const U64_MAX: int := 0xFFFF_FFFF_FFFF_FFFF

  /** std::uint64_t; clock readings are nanosecond counts of this type. */
  type U64 = x: int | 0 <= x <= U64_MAX

  type Byte = x: int | 0 <= x < 256
}
