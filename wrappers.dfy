/** The optional value used for the submission gate and the parsed reply body. */
module Wrappers {
  datatype Option<+T> = None | Some(value: T)
}
