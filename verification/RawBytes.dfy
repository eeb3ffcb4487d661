/** Bytes, as numbers. */
module RawBytes {
  type Byte = x: int | 0 <= x < 256
}
