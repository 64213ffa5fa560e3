/** A value that may be missing: a null pointer, or a function that has nothing to return. */
module Options {

  datatype Option<+T> = None | Some(value: T)
}
