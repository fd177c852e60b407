/** Python's `None` next to a value. */
module Optional {
  datatype Option<T> = None | Some(value: T)
}
