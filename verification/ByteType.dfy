/** Bytes, the data of every part of the model. */
module ByteType {
  newtype Byte = x: int | 0 <= x < 256
}
