/** The optional value: the source's null, undefined and missing cases. */
module Options {
  datatype Option<+T> = None | Some(value: T)
}
