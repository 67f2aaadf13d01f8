/** The optional value every lookup in the model returns (Python's `None` or a value). */
module Wrappers {
  datatype Option<T> = None | Some(value: T)
}
