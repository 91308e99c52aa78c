/** An optional value: a SQL NULL, a missing key, a parse error. */
module Options {
  datatype Option<+T> = None | Some(value: T)
}
