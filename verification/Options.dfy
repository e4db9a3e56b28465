/** Python's optional values. */
module Options {
  datatype Option<+T> = None | Some(value: T)
}
