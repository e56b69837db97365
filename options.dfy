/** The optional-value datatype used for the catalog lookup, targets and the winner. */
module Options {
  datatype Option<+T> = None | Some(value: T)
}
