/** Octets as they come off the wire. */
module Bytes {
  newtype Byte = b: int | 0 <= b < 256
}
