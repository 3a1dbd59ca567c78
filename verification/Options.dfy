module Options {

  /** A value that may be missing: a null pointer, or an unset parameter. */
  datatype Option<+T> = None | Some(value: T)
}
