/** A value that may be absent: a stored collection that could not be read, a failed lookup, text that holds no number. */
module Optional {
  datatype Option<+T> = None | Some(value: T)
}
