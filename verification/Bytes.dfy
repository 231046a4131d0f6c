/** Bytes of files and streams. */
module ByteStrings {

  newtype Byte = x: int | 0 <= x < 256
  type Bytes = seq<Byte>
}
