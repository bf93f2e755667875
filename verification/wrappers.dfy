/** The Option datatype, for values the pose model may fail to deliver. */
module Wrappers {

  /** `None` stands for JavaScript's `undefined`; `Some(v)` for a present value. */
  datatype Option<+T> = None | Some(value: T)
}
