/** The optional value used wherever the Go source has a pointer that may be nil. */
module Options {
  datatype Option<+T> = None | Some(value: T)
}
