/** Octets, as they go over a wire. */
module Bytes {
  newtype byte = x: int | 0 <= x < 256
}
