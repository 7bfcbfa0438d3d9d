/** The one failure-carrying datatype the model needs. */
module Wrappers {

  /** `None` stands for a call that raised; `Some(v)` for one that returned `v`. */
  datatype Option<+T> = None | Some(value: T)
}
