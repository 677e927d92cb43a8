/** The one failure type the project shares. */
module Option {
  datatype Option<+T> = None | Some(value: T)
}
