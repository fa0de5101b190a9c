/** The Some/None datatype used for nullable columns and optional arguments. */
module Options {
  datatype Option<+T> = None | Some(value: T)
}
