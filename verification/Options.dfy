/** The optional value used throughout in place of a nullable pointer. */
module Options {
  datatype Option<+T> = None | Some(value: T)
}
