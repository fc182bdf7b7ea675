/** A value that may be missing: an unset reference, a parameter that is not a number, a hardware value
    that could not be read. */
module Options {
  datatype Option<+T> = None | Some(value: T)
}
