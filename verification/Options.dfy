/** A value that may be absent: a nil pointer, a missing key, an error without detail. */
module Options {

  datatype Option<T> = None | Some(value: T)
}
