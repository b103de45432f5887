/** Result and Option values standing in for Rust's `Result` and `Option`. */
module Wrappers {
  datatype Option<T> = None | Some(value: T)

  /** `Result`; `:-` plays the part of Rust's `?`. */
  datatype Result<T, E> = Ok(value: T) | Err(error: E)
  {
    predicate IsFailure() { Err? }

    function PropagateFailure<U>(): Result<U, E>
      requires Err?
    {
      Err(error)
    }

    function Extract(): T
      requires Ok?
    {
      value
    }
  }
}
