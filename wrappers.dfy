// Small shared value wrappers used across the model.
module Wrappers {

  /** An optional value (std::optional in the C++ core, None in Python). */
  datatype Option<T> = None | Some(value: T)
}
