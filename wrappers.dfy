/** A value that may be absent. */
module Wrappers {

  /** `None` stands for a JavaScript field that was never assigned. */
  datatype Option<+T> = None | Some(value: T)
}
