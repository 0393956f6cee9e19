/** An optional value: a field that may be absent, a step that may fail. */
module Options {

  datatype Option<+T> = None | Some(value: T)
}
