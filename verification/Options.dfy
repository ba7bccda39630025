/** A value that may be absent: a NULL pointer, a free mutex, a failed parse. */
module Options {
  datatype Option<+T> = None | Some(value: T)
}
