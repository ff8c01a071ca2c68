/** The usual optional value: a NULL column, a missing key, a query without a row. */
module Options {
  datatype Option<+T> = None | Some(value: T)
}
