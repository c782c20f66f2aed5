/** A value that may be absent: a missing query argument, a lookup that found no row. */
module Options {
  datatype Option<+T> = None | Some(value: T)
}
