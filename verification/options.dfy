/** A value that may be absent: a NULL column, a missing field, a failed lookup. */
module Options {
  datatype Option<+T> = None | Some(value: T)
}
