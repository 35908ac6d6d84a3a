/** The usual Some/None wrapper, used for JavaScript values that may be missing. */
module Optional {

  datatype Option<+T> = None | Some(value: T)
}
