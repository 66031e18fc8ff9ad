/** The optional value used for the per-instance permission cache. */
module Wrappers {

  /** `None` stands for an attribute that has not been set on the instance yet. */
  datatype Option<+T> = None | Some(value: T)
}
