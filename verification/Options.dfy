/** A value that may be missing: null, nil and undefined in the sources. */
module Options {
  datatype Option<+T> = None | Some(value: T)
}
