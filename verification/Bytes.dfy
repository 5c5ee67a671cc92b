/** Bytes, as the vault format and the broker token use them. */
module Bytes {
  type Byte = b: int | 0 <= b < 256
}
