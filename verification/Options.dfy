/** A value that may be absent: `null` or `undefined` in the source. */
module Options {
  datatype Option<+T> = None | Some(value: T)
}
