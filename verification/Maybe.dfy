/** The optional value used throughout. */
module Maybe {
  datatype Option<+T> = None | Some(value: T)
}
