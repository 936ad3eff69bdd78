/** A value that may be missing: JavaScript's `undefined` becomes `None`. */
module Optional {
  datatype Option<T> = None | Some(value: T)
}
