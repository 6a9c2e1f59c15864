/** Bytes, and the two that structure a log line. */
module Octets {
  newtype byte = x: int | 0 <= x < 256

  type Bytes = seq<byte>

  const NL: byte := 10
  const TAB: byte := 9
}
