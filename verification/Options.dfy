/** A value that may be missing: the scripts' `None`. */
module Options {
  datatype Option<+T> = None | Some(value: T)
}
