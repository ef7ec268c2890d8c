/** A value that may be missing: a null pointer, or a result that an error takes the place of. */
module Options {
  datatype Option<+T> = None | Some(value: T)
}
