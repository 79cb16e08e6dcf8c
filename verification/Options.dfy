/** A value that may be absent, as the source's null and undefined. */
module Options {

  datatype Option<+T> = None | Some(value: T)
}
