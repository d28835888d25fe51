/** The stock optional value, for pointers that may be NULL and results that may be absent. */
module Options {
  datatype Option<+T> = None | Some(value: T)
}
