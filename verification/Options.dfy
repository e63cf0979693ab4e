/** A value that may be absent: `null`, `undefined`, or a missing entry. */
module Options {
  datatype Option<+T> = None | Some(value: T)
}
