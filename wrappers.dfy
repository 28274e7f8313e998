/** The optional value the source's `Option` stands for. */
module Wrappers {
  datatype Option<+T> = None | Some(value: T)
}
