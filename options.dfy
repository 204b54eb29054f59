/** The optional value used wherever the generator returns `null`. */
module Options {
  datatype Option<+T> = None | Some(value: T)
}
