/** Result types shared by the modules of this project. */
module Wrappers {
  datatype Option<+T> = None | Some(value: T)

  /** The end of a call that can return a value, return an error, or stop with a run-time panic. */
  datatype Outcome<+T> = Done(value: T) | Failed | Panicked
}
