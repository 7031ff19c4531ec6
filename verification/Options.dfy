/** A value that may be absent: a nil pointer, a missing map entry or a null field. */
module Options {

  datatype Option<+T> = None | Some(value: T)
}
