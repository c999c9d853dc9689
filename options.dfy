/** The optional value used for the highlighted cell of the board text. */
module Options {
  datatype Option<T> = None | Some(value: T)
}
