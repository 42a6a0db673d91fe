/** The optional value used where the Python code returns or stores `None`. */
module Options {
  datatype Option<+T> = None | Some(value: T)
}
