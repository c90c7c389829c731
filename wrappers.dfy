/** Small failure-carrying datatypes shared by the rest of the model. */
module Wrappers {

  /** Rust's `Option<T>`. */
  datatype Option<+T> = None | Some(value: T)

  /** Rust's `Result<(), String>`, as returned by the store's update and delete. */
  datatype Outcome = Pass | Fail(message: string)
}
