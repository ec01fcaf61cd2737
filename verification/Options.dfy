/** An optional value: Python's `T | None`. */
module Options {
  datatype Option<+T> = None | Some(value: T)
}
