/** Bytes. */
module ByteStrings {

  type Byte = b: int | 0 <= b < 256
}
