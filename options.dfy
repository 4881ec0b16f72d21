/** The optional value used for the engines' nullable fields. */
module Options {
  datatype Option<T> = None | Some(value: T)
}
