/** Types the components share. */
module Values {
  type Byte = b: int | 0 <= b < 256

  datatype Option<T> = None | Some(value: T)
}
