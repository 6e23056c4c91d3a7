/** The optional value that every component uses. */
module Options {

  datatype Option<T> = None | Some(value: T)
}
