/** The Option type shared by all the modules of this project. */
module Options {
  datatype Option<+T> = None | Some(value: T)
}
