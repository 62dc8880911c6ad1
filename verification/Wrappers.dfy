/** Values that may be absent, as the source's `Option<T>`, and bytes. */
module Wrappers {
  datatype Option<+T> = None | Some(value: T)

  type Byte = b: int | 0 <= b < 256
}
