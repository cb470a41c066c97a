/** A value that may be absent: a null column, an empty lookup. */
module Options {

  datatype Option<+T> = None | Some(value: T)
}
