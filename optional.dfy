/** A value that may be absent: JavaScript's `undefined` result of `find`, or
    an exception that may or may not be thrown. */
module Optional {
  datatype Option<T> = None | Some(value: T)
}
