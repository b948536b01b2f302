/** Bytes, as the numbers 0..255 that `charCodeAt` reports for the characters of a binary string. */
module Octets {
  type Byte = b: int | 0 <= b < 256
}
