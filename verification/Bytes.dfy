/** Bytes, as files hold them. */
module Bytes {
  newtype byte = x: int | 0 <= x < 256
  type Bytes = seq<byte>

  const LINE_FEED: byte := 10
}
