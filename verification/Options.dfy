/** The optional value every component of the model returns or stores. */
module Options {
  datatype Option<+T> = None | Some(value: T)
}
