/** A value that may be missing, for Go's `nil` results and for error texts. */
module Options {
  datatype Option<+T> = None | Some(value: T)
}
