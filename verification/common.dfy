/** Small shared vocabulary: optional values and raw bytes. */
module Common {

  /** Swift's `Optional`: a value that may be absent (`nil`). */
  datatype Option<+T> = None | Some(value: T)

  /** One octet of a serialized payload (Swift `Data` is a byte sequence). */
  newtype byte = x: int | 0 <= x < 256

  type Bytes = seq<byte>
}
