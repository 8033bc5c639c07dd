/** The optional value used throughout the project for nullable columns and missing rows. */
module Options {
  datatype Option<+T> = None | Some(value: T)
}
