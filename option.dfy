/** The JavaScript `null`/`undefined` of a lookup, as a value. */
module Optional {
  datatype Option<+T> = None | Some(value: T)
}
