/** The optional value used wherever the plugin tests a field against null or undefined. */
module Options {
  datatype Option<+T> = None | Some(value: T)
}
