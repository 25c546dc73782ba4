/** Small failure-carrying datatypes shared by the model. */
module Wrappers {

  /** Stands in for a Java reference that may be null. */
  datatype Option<+T> = None | Some(value: T)

  /** The outcome of a command that returns nothing but may fail. */
  datatype Outcome<+E> = Pass | Fail(error: E)
}
