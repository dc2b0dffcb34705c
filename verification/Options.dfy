/** The Some/None type shared by every module of the project. */
module Options {
  datatype Option<+T> = None | Some(value: T)
}
