/** The optional value that several modules return where the source returns None. */
module Options {
  datatype Option<+T> = None | Some(value: T)
}
