/** What several components share. */
module Bytes {
  type Byte = c: int | -128 <= c < 128   // a signed char

  datatype Option<T> = None | Some(value: T)
}
