/** The optional value used across the model for nullable columns, missing keys and absent replies. */
module Option {
  datatype Option<+T> = None | Some(value: T)
}
