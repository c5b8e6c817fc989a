/** A byte of memory, of a file or of a message. */
module Bytes {
  type Byte = x: int | 0 <= x < 256
}
