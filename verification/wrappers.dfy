/** Failure-carrying wrappers shared by every stage of the pipeline. */
module Wrappers {

  /** An optional value: `None` where the Rust code has `Option::None`. */
  datatype Option<+T> = None | Some(value: T)

  /** A value or an error; the lexer's panics become `Err`. */
  datatype Result<+T, +E> = Ok(value: T) | Err(error: E) {
    predicate IsFailure() {
      Err?
    }

    function PropagateFailure<U>(): Result<U, E>
      requires Err?
    {
      Err(error)
    }

    function Extract(): T
      requires Ok?
    {
      value
    }
  }
}
