/** The optional value the other modules use for SQL NULL and Python's None. */
module Options {
  datatype Option<+T> = None | Some(value: T)
}
