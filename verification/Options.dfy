/** A value that may be absent, or a null pointer. */
module Options {
  datatype Option<+T> = None | Some(value: T)
}
