/** The optional-value datatype used throughout the model. */
module Wrappers {

  /** A value that may be missing: `None` stands for JavaScript's `null`
      (or a thrown exception, where the model says so). */
  datatype Option<+T> = None | Some(value: T)
}
