/** Bytes, for the code that works below the level of characters. */
module Octets {
  newtype Byte = b: int | 0 <= b < 256

  type Bytes = seq<Byte>
}
