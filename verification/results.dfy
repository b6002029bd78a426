/** Failure-compatible wrappers used throughout the model: `Option` for the
    Swift optionals and `Result` for the Swift functions that `throw`. */
module Results {

  datatype Option<+T> = None | Some(value: T)

  /** A thrown error is `Err(error)`; a returned value is `Ok(value)`.
      Usable with `:-`, so a failing step aborts the enclosing computation. */
  datatype Result<+T, +E> = Ok(value: T) | Err(error: E) {

    predicate IsFailure() {
      Err?
    }

    function PropagateFailure<U>(): Result<U, E>
      requires Err?
    {
      Err(error)
    }

    function Extract(): T
      requires Ok?
    {
      value
    }
  }
}
