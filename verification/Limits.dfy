/** Limits that several components share (codec.hpp, dispatch_store.cpp). */
module Limits {

  const MAX_WIRE_BYTES: nat := 12 * 1024 * 1024
  const MAX_HEADER_PAIRS: nat := 64

  /** The operations one database domain can register. */
  const MAX_OPERATIONS: nat := 16
}
