/** A value that may be absent: used where the source returns a value or throws. */
module Optional {
  datatype Option<+T> = None | Some(value: T)
}
