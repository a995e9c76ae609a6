/** Bytes, as every codec here reads and writes them. */
module Bytes {
  type Byte = b: int | 0 <= b < 256
}
