/** The byte type shared by the frame buffer and the register protocol. */
module Bytes {
  /** An unsigned 8-bit value (`u8`); bit operations such as `|` are native. */
  type Byte = bv8
}
