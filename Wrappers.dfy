/** Small helper datatype shared by the other modules. */
module Wrappers {

  /** An optional value: the model's counterpart of a pointer that may be null. */
  datatype Option<+T> = None | Some(value: T)
}
