/** A value that may be absent: JavaScript's `undefined` for a field that was never set. */
module Optional {

  datatype Option<+T> = None | Some(value: T)
}
