/** The optional value used wherever the source returns None or a regex fails to match. */
module Options {
  datatype Option<+T> = None | Some(value: T)
}
