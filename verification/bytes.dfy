/** Octets, as Python's `bytes` holds them. */
module Bytes {
  type byte = b: int | 0 <= b < 256
}
